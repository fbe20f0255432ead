/**
 Model of the paper-trading broker: simulated fills with a fixed commission on
 each side, a list of active positions, and the balance, gross win/loss, peak
 balance and maximum drawdown accumulators updated on every close.

 Money is `real`; the broker's `round(x, 8)` calls are not modelled, so the
 identities proved here hold exactly in the model and up to that rounding in
 the program.
 */
module PaperBroker {
  import opened Wrappers

  /** Commission (and slippage) charged on each side of a trade: 0.05 %. */
  const CommissionPct: real := 0.0005

  /** The broker compares the side string with "buy"; every other string takes the sell branch. */
  predicate IsBuy(side: string) {
    side == "buy"
  }

  /** The order handed to `execute_order`; a missing timestamp is `None`. */
  datatype Order = Order(
    side: string,
    entryPrice: real,
    stopLoss: real,
    takeProfit: real,
    positionSize: real,
    reason: string,
    timestampMs: Option<real>)

  datatype Position = Position(
    id: string,
    timestampMs: real,
    pair: string,
    side: string,
    entryPrice: real,
    stopLoss: real,
    takeProfit: real,
    positionSize: real,
    reason: string)

  /** A closed trade carries every field of the position it closes. */
  datatype ClosedTrade = ClosedTrade(
    position: Position,
    exitPrice: real,
    pnl: real,
    result: string,
    timestampClose: real)

  datatype Broker = Broker(
    pair: string,
    balance: real,
    initialBalance: real,
    active: seq<Position>,
    closed: seq<ClosedTrade>,
    grossWin: real,
    grossLoss: real,
    peakBalance: real,
    maxDrawdownPct: real)

  // ---------------------------------------------------------------------------
  // Real arithmetic used by the proofs
  // ---------------------------------------------------------------------------

  lemma MulPos(a: real, b: real)
    requires a > 0.0 && b > 0.0
    ensures a * b > 0.0
  {}

  /** Scaling by a positive size keeps the sign of a price move. */
  lemma ScaledSign(move: real, size: real)
    ensures size > 0.0 ==> (move * size > 0.0 <==> move > 0.0)
    ensures size > 0.0 ==> (move * size == 0.0 <==> move == 0.0)
    ensures size == 0.0 ==> move * size == 0.0
  {
    if size > 0.0 {
      if move > 0.0 {
        MulPos(move, size);
      } else if move < 0.0 {
        MulPos(-move, size);
        assert (-move) * size == -(move * size);
      }
    }
  }

  /** `part` as a percentage of `whole`. */
  function Percent(part: real, whole: real): (pct: real)
    requires 0.0 <= part <= whole && whole > 0.0
    ensures 0.0 <= pct <= 100.0
    ensures pct * whole == part * 100.0
  {
    var q := part / whole;
    assert q * whole == part;
    assert q <= 1.0 by {
      if q > 1.0 {
        MulPos(q - 1.0, whole);
      }
    }
    q * 100.0
  }

  lemma RatioAtLeastOne(num: real, den: real)
    requires den > 0.0
    ensures num / den >= 1.0 <==> num >= den
  {
    var q := num / den;
    assert q * den == num;
    if q > 1.0 {
      MulPos(q - 1.0, den);
    } else if q < 1.0 {
      MulPos(1.0 - q, den);
    }
  }

  // ---------------------------------------------------------------------------
  // Prices and PnL
  // ---------------------------------------------------------------------------

  /** Fill price of a new position: the commission moves the price against the trader. */
  function EntryFill(side: string, price: real): (fill: real)
    ensures IsBuy(side) ==> fill - price == CommissionPct * price
    ensures !IsBuy(side) ==> price - fill == CommissionPct * price
    ensures price > 0.0 ==> fill > 0.0 && (IsBuy(side) <==> fill > price)
  {
    if IsBuy(side) then price * (1.0 + CommissionPct) else price * (1.0 - CommissionPct)
  }

  /** Exit price after the exit commission, again against the trader. */
  function ExitFill(side: string, price: real): (fill: real)
    ensures IsBuy(side) ==> price - fill == CommissionPct * price
    ensures !IsBuy(side) ==> fill - price == CommissionPct * price
    ensures price > 0.0 ==> fill > 0.0 && (IsBuy(side) <==> fill < price)
  {
    if IsBuy(side) then price * (1.0 - CommissionPct) else price * (1.0 + CommissionPct)
  }

  /** True when an exit at `exit` is a favourable move for the position's side. */
  predicate Favourable(p: Position, exit: real) {
    if IsBuy(p.side) then exit > p.entryPrice else exit < p.entryPrice
  }

  /** Profit of closing `p` at the (already commission-adjusted) price `exit`. */
  function Pnl(p: Position, exit: real): (pnl: real)
    ensures p.positionSize > 0.0 ==> (pnl > 0.0 <==> Favourable(p, exit))
    ensures p.positionSize > 0.0 ==> (pnl == 0.0 <==> exit == p.entryPrice)
    ensures p.positionSize == 0.0 ==> pnl == 0.0
  {
    var move := if IsBuy(p.side) then exit - p.entryPrice else p.entryPrice - exit;
    ScaledSign(move, p.positionSize);
    move * p.positionSize
  }

  // ---------------------------------------------------------------------------
  // Accumulators
  // ---------------------------------------------------------------------------

  /** Sum of the PnL of a list of closed trades. */
  function SumPnl(trades: seq<ClosedTrade>): real {
    if trades == [] then 0.0 else trades[0].pnl + SumPnl(trades[1..])
  }

  lemma {:induction false} SumPnlAppend(trades: seq<ClosedTrade>, t: ClosedTrade)
    ensures SumPnl(trades + [t]) == SumPnl(trades) + t.pnl
  {
    if trades == [] {
      assert trades + [t] == [t];
    } else {
      assert (trades + [t])[1..] == trades[1..] + [t];
      SumPnlAppend(trades[1..], t);
    }
  }

  /** Percentage by which `balance` lies below `peak`; 0 when the peak is not positive. */
  function DrawdownPct(peak: real, balance: real): real {
    if peak > 0.0 then (peak - balance) / peak * 100.0 else 0.0
  }

  /**
   The accumulator invariant: gross win and gross loss are non-negative and
   their difference is the net PnL, which is also the sum of the closed
   trades' PnL; the peak bounds the balance and the starting balance; the
   maximum drawdown is non-negative and at least the current drawdown.
   */
  predicate Valid(b: Broker) {
    && b.grossWin >= 0.0
    && b.grossLoss >= 0.0
    && b.grossWin - b.grossLoss == b.balance - b.initialBalance
    && b.balance - b.initialBalance == SumPnl(b.closed)
    && b.peakBalance >= b.balance
    && b.peakBalance >= b.initialBalance
    && b.maxDrawdownPct >= 0.0
    && b.maxDrawdownPct >= DrawdownPct(b.peakBalance, b.balance)
  }

  // ---------------------------------------------------------------------------
  // Operations
  // ---------------------------------------------------------------------------

  /**
   A new broker. An explicit balance is used unless it is `None` or zero
   (Python's `or`), in which case the balance read from the environment is used.
   */
  function Init(pair: string, virtualBalance: Option<real>, envBalance: real): (b: Broker)
    ensures virtualBalance.Some? && virtualBalance.value != 0.0 ==> b.balance == virtualBalance.value
    ensures virtualBalance == None || virtualBalance == Some(0.0) ==> b.balance == envBalance
    ensures b.pair == pair && b.initialBalance == b.balance
    ensures b.active == [] && b.closed == []
    ensures Valid(b)
  {
    var balance := if virtualBalance.Some? && virtualBalance.value != 0.0 then virtualBalance.value else envBalance;
    Broker(pair, balance, balance, [], [], 0.0, 0.0, balance, 0.0)
  }

  /**
   Fill an order: exactly one position is appended, with the commission-adjusted
   entry price and every other order field copied; nothing else changes.
   The id and the current clock are parameters.
   */
  function ExecuteOrder(b: Broker, order: Order, id: string, nowMs: real): (r: (Broker, Position))
    ensures r.1.id == id && r.1.pair == b.pair && r.1.side == order.side
    ensures r.1.entryPrice == EntryFill(order.side, order.entryPrice)
    ensures r.1.stopLoss == order.stopLoss && r.1.takeProfit == order.takeProfit
    ensures r.1.positionSize == order.positionSize && r.1.reason == order.reason
    ensures order.timestampMs.Some? && order.timestampMs.value != 0.0 ==> r.1.timestampMs == order.timestampMs.value
    ensures order.timestampMs == None || order.timestampMs == Some(0.0) ==> r.1.timestampMs == nowMs
    ensures r.0.active == b.active + [r.1]
    ensures r.0 == b.(active := r.0.active)
    ensures Valid(b) ==> Valid(r.0)
  {
    var ts := if order.timestampMs.Some? && order.timestampMs.value != 0.0 then order.timestampMs.value else nowMs;
    var pos := Position(id, ts, b.pair, order.side, EntryFill(order.side, order.entryPrice),
                        order.stopLoss, order.takeProfit, order.positionSize, order.reason);
    (b.(active := b.active + [pos]), pos)
  }

  /** The active positions whose id differs from `id`, in their original order. */
  function RemoveById(ps: seq<Position>, id: string): (r: seq<Position>)
    ensures forall q :: q in r <==> q in ps && q.id != id
    ensures |r| <= |ps|
  {
    if ps == [] then []
    else if ps[0].id == id then RemoveById(ps[1..], id)
    else [ps[0]] + RemoveById(ps[1..], id)
  }

  lemma {:induction false} RemoveByIdAppend(xs: seq<Position>, ys: seq<Position>, id: string)
    ensures RemoveById(xs + ys, id) == RemoveById(xs, id) + RemoveById(ys, id)
  {
    if xs == [] {
      assert xs + ys == ys;
    } else {
      assert (xs + ys)[0] == xs[0];
      assert (xs + ys)[1..] == xs[1..] + ys;
      RemoveByIdAppend(xs[1..], ys, id);
    }
  }

  /** Positions with another id are kept exactly; with no match the list is unchanged. */
  lemma {:induction false} RemoveByIdKeepsOthers(ps: seq<Position>, id: string)
    requires forall i :: 0 <= i < |ps| ==> ps[i].id != id
    ensures RemoveById(ps, id) == ps
  {
    if ps != [] {
      RemoveByIdKeepsOthers(ps[1..], id);
    }
  }

  /**
   Close `p` at the raw price `exitPrice`. The caller's `result` label is stored
   as given. The closed trade is appended, every active position with `p`'s id
   is removed, the balance moves by exactly the PnL, which goes to gross win
   when non-negative and to gross loss otherwise, and the peak balance and the
   maximum drawdown never decrease.
   */
  function ClosePosition(b: Broker, p: Position, exitPrice: real, result: string, nowMs: real): (r: (Broker, ClosedTrade))
    ensures r.1.position == p && r.1.result == result && r.1.timestampClose == nowMs
    ensures r.1.exitPrice == ExitFill(p.side, exitPrice)
    ensures r.1.pnl == Pnl(p, r.1.exitPrice)
    ensures r.0.pair == b.pair && r.0.initialBalance == b.initialBalance
    ensures r.0.active == RemoveById(b.active, p.id)
    ensures r.0.closed == b.closed + [r.1]
    ensures r.0.balance == b.balance + r.1.pnl
    ensures r.1.pnl >= 0.0 ==> r.0.grossWin == b.grossWin + r.1.pnl && r.0.grossLoss == b.grossLoss
    ensures r.1.pnl < 0.0 ==> r.0.grossLoss == b.grossLoss - r.1.pnl && r.0.grossWin == b.grossWin
    ensures r.0.peakBalance >= b.peakBalance && r.0.peakBalance >= r.0.balance
    ensures r.0.peakBalance == b.peakBalance || r.0.peakBalance == r.0.balance
    ensures r.0.maxDrawdownPct >= b.maxDrawdownPct
    ensures r.0.maxDrawdownPct >= DrawdownPct(r.0.peakBalance, r.0.balance)
    ensures r.0.maxDrawdownPct == b.maxDrawdownPct || r.0.maxDrawdownPct == DrawdownPct(r.0.peakBalance, r.0.balance)
  {
    var exit := ExitFill(p.side, exitPrice);
    var pnl := Pnl(p, exit);
    var ct := ClosedTrade(p, exit, pnl, result, nowMs);
    var balance := b.balance + pnl;
    var grossWin := if pnl >= 0.0 then b.grossWin + pnl else b.grossWin;
    var grossLoss := if pnl >= 0.0 then b.grossLoss else b.grossLoss + (-pnl);
    var peak := if balance > b.peakBalance then balance else b.peakBalance;
    var dd := DrawdownPct(peak, balance);
    var maxDd := if dd > b.maxDrawdownPct then dd else b.maxDrawdownPct;
    (Broker(b.pair, balance, b.initialBalance, RemoveById(b.active, p.id), b.closed + [ct],
            grossWin, grossLoss, peak, maxDd), ct)
  }

  /** Closing a position keeps the accumulator invariant. */
  lemma ClosePreservesValid(b: Broker, p: Position, exitPrice: real, result: string, nowMs: real)
    requires Valid(b)
    ensures Valid(ClosePosition(b, p, exitPrice, result, nowMs).0)
  {
    var r := ClosePosition(b, p, exitPrice, result, nowMs);
    SumPnlAppend(b.closed, r.1);
  }

  /**
   The two commissions make a round trip at an unchanged raw price a strict loss:
   opening and closing at the same positive price with a positive size yields a
   negative PnL and lowers the balance.
   */
  lemma RoundTripAtSamePriceLoses(b: Broker, order: Order, id: string, openMs: real, result: string, closeMs: real)
    requires order.entryPrice > 0.0 && order.positionSize > 0.0
    ensures var (b1, p) := ExecuteOrder(b, order, id, openMs);
            var (b2, ct) := ClosePosition(b1, p, order.entryPrice, result, closeMs);
            ct.pnl < 0.0 && b2.balance < b.balance
  {
    var (b1, p) := ExecuteOrder(b, order, id, openMs);
    var exit := ExitFill(p.side, order.entryPrice);
    if IsBuy(order.side) {
      assert exit < order.entryPrice < p.entryPrice;
    } else {
      assert p.entryPrice < order.entryPrice < exit;
    }
    assert !Favourable(p, exit) && exit != p.entryPrice;
  }

  // ---------------------------------------------------------------------------
  // Statistics
  // ---------------------------------------------------------------------------

  datatype ProfitFactor = Finite(ratio: real) | Infinite

  datatype Stats = Stats(
    winRatePct: real,
    profitFactor: ProfitFactor,
    maxDrawdownPct: real,
    totalTrades: nat,
    netPnl: real,
    balance: real,
    activePositions: nat)

  /** Number of closed trades labelled "WIN". */
  function CountWins(trades: seq<ClosedTrade>): (n: nat)
    ensures n <= |trades|
  {
    if trades == [] then 0
    else (if trades[0].result == "WIN" then 1 else 0) + CountWins(trades[1..])
  }

  /** No wins exactly when no trade is labelled "WIN"; all wins exactly when every trade is. */
  lemma {:induction false} CountWinsExtremes(trades: seq<ClosedTrade>)
    ensures CountWins(trades) == 0 <==> forall i :: 0 <= i < |trades| ==> trades[i].result != "WIN"
    ensures CountWins(trades) == |trades| <==> forall i :: 0 <= i < |trades| ==> trades[i].result == "WIN"
  {
    if trades != [] {
      CountWinsExtremes(trades[1..]);
      assert forall i :: 1 <= i < |trades| ==> trades[i] == trades[1..][i - 1];
    }
  }

  /** Win rate in percent: 0 with no closed trades, otherwise the share of "WIN" labels. */
  function WinRatePct(trades: seq<ClosedTrade>): (rate: real)
    ensures 0.0 <= rate <= 100.0
    ensures |trades| == 0 ==> rate == 0.0
    ensures |trades| > 0 ==> rate * (|trades| as real) == (CountWins(trades) as real) * 100.0
  {
    if |trades| > 0 then Percent(CountWins(trades) as real, |trades| as real) else 0.0
  }

  /** Gross win over gross loss; infinite with wins and no losses; 0 with neither. */
  function ProfitFactorOf(grossWin: real, grossLoss: real): (pf: ProfitFactor)
    ensures pf.Finite? && grossLoss > 0.0 ==> pf.ratio * grossLoss == grossWin
    ensures pf.Infinite? <==> grossLoss <= 0.0 && grossWin > 0.0
    ensures grossLoss <= 0.0 && grossWin <= 0.0 ==> pf == Finite(0.0)
  {
    if grossLoss > 0.0 then Finite(grossWin / grossLoss)
    else if grossWin > 0.0 then Infinite
    else Finite(0.0)
  }

  function GetStats(b: Broker): (s: Stats)
    ensures s.totalTrades == |b.closed| && s.activePositions == |b.active|
    ensures 0.0 <= s.winRatePct <= 100.0
    ensures s.netPnl == b.balance - b.initialBalance && s.balance == b.balance
    ensures s.maxDrawdownPct == b.maxDrawdownPct
    ensures s.winRatePct == WinRatePct(b.closed)
    ensures s.profitFactor == ProfitFactorOf(b.grossWin, b.grossLoss)
  {
    Stats(WinRatePct(b.closed), ProfitFactorOf(b.grossWin, b.grossLoss), b.maxDrawdownPct,
          |b.closed|, b.balance - b.initialBalance, b.balance, |b.active|)
  }

  /**
   On a valid broker the statistics agree with the ledger: net PnL is the sum of
   the closed trades' PnL, the profit factor is never negative, and it is
   infinite exactly when there are no losses and the net PnL is positive.
   */
  lemma StatsMeaning(b: Broker)
    requires Valid(b)
    ensures GetStats(b).netPnl == SumPnl(b.closed)
    ensures GetStats(b).profitFactor.Finite? ==> GetStats(b).profitFactor.ratio >= 0.0
    ensures GetStats(b).profitFactor.Infinite? <==> b.grossLoss == 0.0 && GetStats(b).netPnl > 0.0
  {
    if b.grossLoss > 0.0 {
      var q := b.grossWin / b.grossLoss;
      assert q * b.grossLoss == b.grossWin;
      if q < 0.0 {
        MulPos(-q, b.grossLoss);
      }
    }
  }

  /** With losses on the books, the profit factor is at least 1 exactly when the net PnL is not negative. */
  lemma ProfitFactorAtLeastOne(b: Broker)
    requires Valid(b) && b.grossLoss > 0.0
    ensures GetStats(b).profitFactor.ratio >= 1.0 <==> GetStats(b).netPnl >= 0.0
  {
    RatioAtLeastOne(b.grossWin, b.grossLoss);
  }

  // ---------------------------------------------------------------------------
  // Event traces
  // ---------------------------------------------------------------------------

  /** One call into the broker, with the id and clocks supplied from outside. */
  datatype Event =
    | Open(order: Order, id: string, nowMs: real)
    | Close(position: Position, exitPrice: real, result: string, closeMs: real)

  function Step(b: Broker, e: Event): Broker {
    match e
    case Open(order, id, nowMs) => ExecuteOrder(b, order, id, nowMs).0
    case Close(p, exitPrice, result, closeMs) => ClosePosition(b, p, exitPrice, result, closeMs).0
  }

  function Replay(b: Broker, events: seq<Event>): Broker
    decreases |events|
  {
    if events == [] then b else Replay(Step(b, events[0]), events[1..])
  }

  /**
   Along any sequence of opens and closes the accumulator invariant holds, and
   the peak balance, the maximum drawdown and the number of closed trades never
   decrease.
   */
  lemma {:induction false} ReplayKeepsValid(b: Broker, events: seq<Event>)
    requires Valid(b)
    ensures var r := Replay(b, events);
            && Valid(r)
            && r.initialBalance == b.initialBalance
            && r.peakBalance >= b.peakBalance
            && r.maxDrawdownPct >= b.maxDrawdownPct
            && |r.closed| >= |b.closed|
    decreases |events|
  {
    if events != [] {
      var b1 := Step(b, events[0]);
      match events[0] {
        case Open(order, id, nowMs) =>
        case Close(p, exitPrice, result, closeMs) =>
          ClosePreservesValid(b, p, exitPrice, result, closeMs);
      }
      ReplayKeepsValid(b1, events[1..]);
    }
  }
}
