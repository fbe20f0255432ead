# Rhizoo alpha bot: bookkeeping, buffering, fan-out and reconnect core

A Dafny model of the four pieces of the Rhizoo alpha bot that contain real
decision logic. Everything is an immutable datatype with pure transition
functions. The two loops over sets are methods.

- **Paper broker** (`paper_broker.dfy`, module `PaperBroker`). This is the
  simulated execution venue. An order fills at a price moved 0.05 % against the
  trader, and it becomes an active position. Closing a position moves the exit
  price another 0.05 % against the trader and computes the PnL. It then removes
  every active position with the closed id and appends the closed trade. It
  also updates the balance, gross win and gross loss, the peak balance and the
  maximum drawdown. `get_stats` derives the win rate, the profit factor and the
  counts. The invariant `Valid` ties the accumulators together:
  - gross win − gross loss = balance − initial balance = the sum of the closed
    trades' PnL;
  - the peak balance bounds the balance;
  - the maximum drawdown is at least the current drawdown.

  `ReplayKeepsValid` shows that `Valid` holds along any sequence of opens and
  closes.
- **Trade buffer** (`data_buffer.dfy`, module `DataBuffer`). This is the bounded
  FIFO, a Python `deque` with `maxlen`. After a push it holds exactly the newest
  `maxSize` trades of the old contents followed by the batch.
- **Dashboard registry and routing** (`dashboard.dfy`, module `Dashboard`). It
  maps each symbol to a set of WebSocket clients and supports connect,
  disconnect, broadcast, broadcast-to-all and the union of all clients. It also
  covers normalisation of the path symbol and the routing of a published
  telemetry message. The model does not perform sends. Each operation that
  sends takes the set of clients whose send fails.
- **Trade-stream reconnect policy** (`trade_stream.dfy`, module `TradeStream`).
  The retry counter of `stream_trades` is a fold over a trace of what each wait
  on the exchange produced: a batch, a network error, a cancellation or another
  exception. The fold yields the actions taken: yield, sleep 2^k seconds, or
  raise.

`wrappers.dfy` (module `Wrappers`) holds the `Option` type, which stands for Python's `None`.

Python's `or` on a number treats both `None` and `0.0` as missing. So an
explicit balance of `Some(0.0)` falls back to the balance from the environment,
as in the source, and so does an order timestamp of `Some(0.0)`.

Some behaviours of the source are kept as written:
- `close_position` does not check that the position is still active. Closing
  the same position twice books its PnL twice.
- The win rate counts trades whose caller-supplied label is `"WIN"`. Gross win
  and gross loss, and so the profit factor, use the sign of the PnL. The two
  can disagree.
- A routed telemetry message uses the raw `data.symbol` / `data.pair`. Client
  registrations use the normalised path symbol, so a lower-case or `_`-separated
  payload symbol reaches no client.
- A JSON message that is not an object, or whose `data` member is not an
  object, makes `.get` raise `AttributeError`. A chosen key that is a non-empty
  list or object makes the registry lookup raise `TypeError`, because it is
  unhashable. The JSON-decode handler catches neither error. It reaches the subscriber's outer handler, which drops the
  message and reconnects. `RouteOf` calls this route `Dropped`.

## Model

| member | source | states |
|---|---|---|
| PaperBroker.Init | bots/rhizoo-alpha-bot/core/paper_broker.py:66-89 | An explicit non-zero balance is used, otherwise the environment balance; the initial balance equals it, no positions or trades exist, and the accumulator invariant holds from the start |
| PaperBroker.EntryFill | bots/rhizoo-alpha-bot/core/paper_broker.py:105-109 | The fill is shifted by exactly 0.05 % of the order price, upward for "buy" and downward for any other side; for a positive price a buy fills above and a sell below the order price |
| PaperBroker.ExecuteOrder | bots/rhizoo-alpha-bot/core/paper_broker.py:103-124 | Exactly one position is appended after the existing ones, with the adjusted entry, the given id, the broker's pair and side, stop-loss, take-profit, size and reason copied; the order timestamp is used unless missing or zero; nothing else in the broker changes and validity is kept |
| PaperBroker.ExitFill | bots/rhizoo-alpha-bot/core/paper_broker.py:139-143 | The exit commission is also adverse: a buy exits 0.05 % lower and a sell 0.05 % higher than the raw exit price |
| PaperBroker.Pnl | bots/rhizoo-alpha-bot/core/paper_broker.py:146-149 | For a positive size the PnL is positive exactly when the exit moved in the position's favour and zero exactly when exit equals entry; a zero size gives zero PnL |
| PaperBroker.RemoveById | bots/rhizoo-alpha-bot/core/paper_broker.py:169-171 | The remaining positions are exactly those of the list whose id differs from the closed id |
| PaperBroker.RemoveByIdAppend | bots/rhizoo-alpha-bot/core/paper_broker.py:169-171 | Removal distributes over concatenation, so the kept positions stay in their original order |
| PaperBroker.RemoveByIdKeepsOthers | bots/rhizoo-alpha-bot/core/paper_broker.py:169-171 | A list with no position of the closed id is returned unchanged |
| PaperBroker.ClosePosition | bots/rhizoo-alpha-bot/core/paper_broker.py:134-191 | One closed trade carrying the position, adjusted exit, PnL and label is appended; every active position with that id is removed; the balance moves by exactly the PnL; a non-negative PnL goes to gross win and a negative one to gross loss; peak balance and maximum drawdown never decrease, the peak bounds the new balance and the maximum drawdown bounds the new drawdown |
| PaperBroker.ClosePreservesValid | bots/rhizoo-alpha-bot/core/paper_broker.py:173-191 | Closing keeps gross win and loss non-negative with difference equal to the net PnL and to the sum of closed trades' PnL, and keeps the peak and drawdown bounds |
| PaperBroker.RoundTripAtSamePriceLoses | bots/rhizoo-alpha-bot/core/paper_broker.py:105-149 | Opening and closing at the same positive raw price with a positive size yields a strictly negative PnL and a lower balance |
| PaperBroker.CountWins | bots/rhizoo-alpha-bot/core/paper_broker.py:206 | The number of "WIN" labels is at most the number of trades |
| PaperBroker.CountWinsExtremes | bots/rhizoo-alpha-bot/core/paper_broker.py:206 | The win count is zero exactly when no trade is labelled "WIN", and equals the total exactly when every trade is |
| PaperBroker.WinRatePct | bots/rhizoo-alpha-bot/core/paper_broker.py:205-207 | The win rate lies in [0,100], is 0 with no trades, and otherwise times the trade count equals 100 times the wins |
| PaperBroker.ProfitFactorOf | bots/rhizoo-alpha-bot/core/paper_broker.py:208-212 | With losses the factor times the gross loss is the gross win; it is infinite exactly when there are no losses and some wins; with neither it is 0 |
| PaperBroker.GetStats | bots/rhizoo-alpha-bot/core/paper_broker.py:204-223 | Total trades and active positions are the list lengths; the win rate lies in [0,100] and is the percentage of closed trades labelled "WIN" (`WinRatePct`); the profit factor is gross win over gross loss as `ProfitFactorOf` defines it; net PnL is balance minus initial balance; balance and maximum drawdown are reported as kept |
| PaperBroker.StatsMeaning | bots/rhizoo-alpha-bot/core/paper_broker.py:208-213 | On a valid broker net PnL is the sum of closed trades' PnL, the profit factor is never negative, and it is infinite exactly when there are no losses and net PnL is positive |
| PaperBroker.ProfitFactorAtLeastOne | bots/rhizoo-alpha-bot/core/paper_broker.py:208-213 | On a valid broker with losses, the profit factor is at least 1 exactly when net PnL is not negative |
| PaperBroker.ReplayKeepsValid | bots/rhizoo-alpha-bot/core/paper_broker.py:173-191 | Along any sequence of opens and closes the accumulator invariant holds and the peak balance, the maximum drawdown and the number of closed trades never decrease |
| DataBuffer.Create | bots/rhizoo-alpha-bot/data/processor.py:10-25 | Without a configuration the buffer is empty with the default bound of 1000; with one, a buffer is created exactly when its maximum length is non-negative, empty and with that bound |
| DataBuffer.AppendOne | bots/rhizoo-alpha-bot/data/processor.py:30-31 | One append keeps the bound and leaves the newest `maxSize` elements of the old contents plus the new trade |
| DataBuffer.Push | bots/rhizoo-alpha-bot/data/processor.py:28-31 | After a push the length never exceeds the bound and the contents are the last `maxSize` elements of the old contents followed by the batch, in arrival order |
| DataBuffer.Snapshot | bots/rhizoo-alpha-bot/data/processor.py:33-35 | The snapshot is the buffered trades, oldest first; its length is the buffer's size, which never exceeds the bound |
| DataBuffer.SnapshotAfterPush | bots/rhizoo-alpha-bot/data/processor.py:25-35 | The snapshot after a push is the newest `maxSize` trades of the old snapshot followed by the batch, i.e. a suffix of that concatenation as long as the new size |
| DataBuffer.Size | bots/rhizoo-alpha-bot/data/processor.py:37-39 | The size never exceeds the bound |
| DataBuffer.Clear | bots/rhizoo-alpha-bot/data/processor.py:45-46 | After clearing the size is 0, the snapshot is empty and the bound is kept |
| DataBuffer.PushEmptyUnchanged | bots/rhizoo-alpha-bot/data/processor.py:28-31 | Pushing an empty batch leaves the buffer unchanged |
| DataBuffer.Full | bots/rhizoo-alpha-bot/data/processor.py:41-43 | The buffer is full exactly when its size is not below the configured maximum, i.e. when the next append must evict |
| DataBuffer.AppendGrowsUnlessFull | bots/rhizoo-alpha-bot/data/processor.py:30-43 | One append grows the buffer by one exactly when it is not full; on a full non-zero buffer it drops the oldest trade and adds the new one at the end |
| DataBuffer.FullStaysFull | bots/rhizoo-alpha-bot/data/processor.py:41-43 | A full buffer stays full under every push |
| DataBuffer.PushEvictsOldest | bots/rhizoo-alpha-bot/data/processor.py:25-31 | An overflowing push leaves the buffer full; a batch at least as long as the bound leaves only its own last `maxSize` trades; a push that fits keeps everything |
| DataBuffer.PushConcat | bots/rhizoo-alpha-bot/data/processor.py:28-31 | Pushing two batches one after the other equals pushing their concatenation |
| Dashboard.Connect | bots/rhizoo-alpha-bot/services/dashboard/main.py:41-43 | The client joins its symbol's set, which is created when absent; other symbols are unchanged; the set of all clients gains exactly that client; no empty set is introduced |
| Dashboard.Disconnect | bots/rhizoo-alpha-bot/services/dashboard/main.py:46-50 | The client leaves the symbol's set and the symbol is deleted when its set becomes empty; other symbols are unchanged; an unknown symbol is a no-op |
| Dashboard.DisconnectUndoesConnect | bots/rhizoo-alpha-bot/services/dashboard/main.py:41-50 | Connecting a new client and disconnecting it under the same symbol gives back the original registry |
| Dashboard.Broadcast | bots/rhizoo-alpha-bot/services/dashboard/main.py:53-63 | Exactly the failed clients leave the symbol's set, the others stay and receive the message, the symbol is kept even if emptied, other symbols are unchanged, and an unknown symbol changes nothing |
| Dashboard.BroadcastCanLeaveEmptySet | bots/rhizoo-alpha-bot/services/dashboard/main.py:53-63 | A broadcast whose only client fails leaves a symbol with an empty set, which connect and disconnect never do |
| Dashboard.BroadcastAll | bots/rhizoo-alpha-bot/services/dashboard/main.py:65-68 | Every symbol present at the start loses exactly its failed clients, no symbol is added or removed, and the message reaches every subscribed client whose send succeeds |
| Dashboard.AllClients | bots/rhizoo-alpha-bot/services/dashboard/main.py:70-75 | The result is the union of all per-symbol client sets |
| Dashboard.NormalizeSymbol | bots/rhizoo-alpha-bot/services/dashboard/main.py:180 | The normalised symbol has the same length; position by position a "_" becomes "/" and every other character is upper-cased; so it contains no "_" and no lower-case ASCII letter, and every other character stays in place |
| Dashboard.NormalizeIdempotent | bots/rhizoo-alpha-bot/services/dashboard/main.py:180 | Normalising twice is the same as normalising once |
| Dashboard.RouteOf | bots/rhizoo-alpha-bot/services/dashboard/main.py:115-124 | A message goes to `data.symbol` when truthy, else to `data.pair` when truthy; it goes to everybody when it is not JSON, has no `data`, or has neither key; it is dropped exactly when the JSON or its `data` is not an object, or the chosen key is a truthy list or object (unhashable in the registry lookup at main.py:55) |
| Dashboard.Deliver | bots/rhizoo-alpha-bot/services/dashboard/main.py:112-124 | A routed message touches only its symbol's clients, a message for everybody reaches every subscribed client that does not fail, and a dropped message or a non-text scalar key changes nothing |
| TradeStream.Step | bots/rhizoo-alpha-bot/core/exchange_client.py:77-102 | From the loop head, one event leads back to the loop head or to a raise, never to the `while` guard failing; an ended stream ignores further events |
| TradeStream.GuardNeverExits | bots/rhizoo-alpha-bot/core/exchange_client.py:77-91 | Along any trace the counter at the loop head stays within 0..5 and the stream never ends through the loop guard |
| TradeStream.ConsecutiveFailures | bots/rhizoo-alpha-bot/core/exchange_client.py:87-98 | Consecutive network errors within the limit raise the counter by one each and sleep 2^k seconds on the k-th retry |
| TradeStream.BackoffSchedule | bots/rhizoo-alpha-bot/core/exchange_client.py:87-98 | From a fresh stream five network errors sleep 2, 4, 8, 16 and 32 seconds and leave the counter at 5 |
| TradeStream.SixthFailureGivesUp | bots/rhizoo-alpha-bot/core/exchange_client.py:88-91 | The sixth consecutive network error re-raises and ends the stream with the counter at 6 |
| TradeStream.FailuresCountSinceLastBatch | bots/rhizoo-alpha-bot/core/exchange_client.py:81-84 | After a received batch the stream behaves as a fresh one, so failures count only since the last batch |
| TradeStream.CancelKeepsCounter | bots/rhizoo-alpha-bot/core/exchange_client.py:100-102 | Cancellation re-raises and leaves the counter unchanged |
| TradeStream.EndedStaysEnded | bots/rhizoo-alpha-bot/core/exchange_client.py:88-102 | After the stream has raised, no further action happens |
| TradeStream.YieldsEveryBatch | bots/rhizoo-alpha-bot/core/exchange_client.py:80-85 | While the stream runs, the yielded batches are exactly the received batches, unchanged and in order |

## Left out

- Rounding: `round(x, 8)` on fills and PnL and the rounding of the statistics
  are not modelled. Money is `real`. The identity between gross win/loss and
  the balance therefore holds exactly here, but only up to this rounding in
  the program.
- Float special values: the profit factor's `float("inf")` is the constructor
  `Infinite`. Other float behaviour (overflow, NaN) is not modelled.
- CSV ledger: writing the header and the rows is file I/O, as is creating the
  log directory.
- Ids, clocks and configuration: the random position id, the close time and
  the `PAPER_BALANCE` environment value are parameters of the operations.
  Logging is left out.
- `PaperBroker.ClosedTrade`: the position's fields are embedded as one
  `Position` value instead of being repeated field by field.
- The strategy, strategy base class, risk manager and entry point are left
  out. They contain no decision logic: the risk manager always approves and
  the strategy methods are empty.
- Telemetry publishing and the terminal mock UI are left out. They are
  fire-and-forget I/O and formatting.
- Dashboard I/O is left out: the Redis connection and subscription, WebSocket
  accept/send/receive, the heartbeat task, the FastAPI app and the static file
  mount. Only the registry and the routing decisions are modelled.
- Dashboard.Broadcast: a client's send either fails or succeeds for the
  whole call. Interleavings with other coroutines while a send awaits are not
  modelled.
- Dashboard.BroadcastAll: the same failed set applies to every symbol's
  broadcast. Delivery is recorded as a set of clients, so a client that
  subscribed under two symbols and received the message twice appears once.
- Dashboard.NormalizeSymbol: upper-casing covers ASCII letters only. Python's
  full Unicode `str.upper` (which can change the length) is not modelled.
- Dashboard.RouteOf: a member value is text, absent, another scalar, or a list
  or object; of the last two only the truthiness is kept. The JSON parser itself is not modelled.
- Exchange client: building the exchange, the `fetch_ticker` wrappers and
  closing the connection are thin wrappers over an exchange library that is
  not part of this model. Actual sleeping is an action in the trace, not a
  delay.
- TradeStream.Step: `BACKOFF_BASE_SECONDS ** retries` is a float. It is
  modelled as the natural number 2^k, which it equals exactly for k ≤ 5.
- DataBuffer: trades are an opaque element type. A `BufferConfig` is reduced
  to its `max_size`; a configuration object is always truthy, so only a
  missing one falls back to the default.
