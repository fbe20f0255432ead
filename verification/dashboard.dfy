/**
 Model of the dashboard's connection registry and message routing: each
 symbol maps to the set of WebSocket clients watching it. Sending is not
 modelled; instead every operation that sends receives the set of clients
 whose send fails, and the model states what the registry becomes and which
 clients received the message.
 */
module Dashboard {

  /** symbol → clients subscribed to it. */
  type Registry<C> = map<string, set<C>>

  /** The registry after a send, and the clients that received the message. */
  datatype Fanout<C> = Fanout(registry: Registry<C>, delivered: set<C>)

  /** Clients subscribed to at least one of `symbols`. */
  ghost function ClientsOf<C>(reg: Registry<C>, symbols: set<string>): set<C> {
    set s, c | s in symbols && s in reg && c in reg[s] :: c
  }

  /** Every client in the registry, under whatever symbol. */
  ghost function Subscribed<C>(reg: Registry<C>): set<C> {
    ClientsOf(reg, reg.Keys)
  }

  /** No symbol is kept with an empty client set. */
  predicate NoEmptySets<C>(reg: Registry<C>) {
    forall s :: s in reg ==> reg[s] != {}
  }

  // ---------------------------------------------------------------------------
  // Registry operations
  // ---------------------------------------------------------------------------

  /** Add `ws` under `symbol`, creating the symbol's set when it is absent. */
  function Connect<C>(reg: Registry<C>, ws: C, symbol: string): (r: Registry<C>)
    ensures r.Keys == reg.Keys + {symbol}
    ensures ws in r[symbol]
    ensures symbol in reg ==> reg[symbol] <= r[symbol] && r[symbol] - {ws} <= reg[symbol]
    ensures symbol !in reg ==> r[symbol] == {ws}
    ensures forall s :: s in reg && s != symbol ==> r[s] == reg[s]
    ensures Subscribed(r) == Subscribed(reg) + {ws}
    ensures NoEmptySets(reg) ==> NoEmptySets(r)
  {
    var current := if symbol in reg then reg[symbol] else {};
    var r := reg[symbol := current + {ws}];
    assert Subscribed(r) == Subscribed(reg) + {ws} by {
      forall c | c in Subscribed(r) ensures c in Subscribed(reg) + {ws} {
        var s :| s in r && c in r[s];
        if s != symbol { assert c in ClientsOf(reg, reg.Keys); }
        else if c != ws { assert c in reg[symbol]; }
      }
      forall c | c in Subscribed(reg) + {ws} ensures c in Subscribed(r) {
        if c == ws {
          assert c in r[symbol];
        } else {
          var s :| s in reg && c in reg[s];
          assert c in r[s];
        }
      }
    }
    r
  }

  /**
   Remove `ws` from `symbol`, dropping the symbol when its set becomes empty.
   An unknown symbol leaves the registry unchanged.
   */
  function Disconnect<C>(reg: Registry<C>, ws: C, symbol: string): (r: Registry<C>)
    ensures symbol !in reg ==> r == reg
    ensures symbol in reg && reg[symbol] - {ws} == {} ==> r.Keys == reg.Keys - {symbol}
    ensures symbol in reg && reg[symbol] - {ws} != {} ==> r.Keys == reg.Keys && r[symbol] == reg[symbol] - {ws}
    ensures forall s :: s in reg && s != symbol ==> s in r && r[s] == reg[s]
    ensures symbol in r ==> ws !in r[symbol] || symbol !in reg
    ensures NoEmptySets(reg) ==> NoEmptySets(r)
  {
    if symbol in reg then
      var rest := reg[symbol] - {ws};
      if rest == {} then reg - {symbol} else reg[symbol := rest]
    else reg
  }

  /**
   Send to every client of `symbol`; the clients whose send fails are removed
   and the others kept. The symbol stays even when its set becomes empty. An
   unknown symbol reaches nobody and changes nothing.
   */
  function Broadcast<C>(reg: Registry<C>, symbol: string, failed: set<C>): (out: Fanout<C>)
    ensures symbol !in reg ==> out == Fanout(reg, {})
    ensures out.registry.Keys == reg.Keys
    ensures symbol in reg ==> out.registry[symbol] <= reg[symbol] && out.registry[symbol] !! failed
    ensures symbol in reg ==> reg[symbol] - failed <= out.registry[symbol]
    ensures forall s :: s in reg && s != symbol ==> out.registry[s] == reg[s]
    ensures symbol in reg ==> out.delivered == out.registry[symbol]
    ensures out.delivered !! failed
  {
    if symbol in reg then
      var alive := reg[symbol] - failed;
      Fanout(reg[symbol := alive], alive)
    else Fanout(reg, {})
  }

  /**
   Send to every symbol present at the start: each symbol's set loses exactly
   its failed clients, no symbol is added or removed, and the message reaches
   every subscribed client whose send succeeds.
   */
  method BroadcastAll<C>(reg: Registry<C>, failed: set<C>) returns (out: Fanout<C>)
    ensures out.registry.Keys == reg.Keys
    ensures forall s :: s in reg ==> out.registry[s] == reg[s] - failed
    ensures out.delivered == Subscribed(reg) - failed
  {
    var pending := reg.Keys;
    var cur := reg;
    var delivered: set<C> := {};
    while pending != {}
      invariant pending <= reg.Keys
      invariant cur.Keys == reg.Keys
      invariant forall s :: s in reg && s !in pending ==> cur[s] == reg[s] - failed
      invariant forall s :: s in pending ==> cur[s] == reg[s]
      invariant delivered == ClientsOf(reg, reg.Keys - pending) - failed
      decreases pending
    {
      var s :| s in pending;
      var step := Broadcast(cur, s, failed);
      assert ClientsOf(reg, reg.Keys - (pending - {s})) == ClientsOf(reg, reg.Keys - pending) + reg[s] by {
        var done := reg.Keys - pending;
        assert reg.Keys - (pending - {s}) == done + {s};
        forall c | c in ClientsOf(reg, done + {s}) ensures c in ClientsOf(reg, done) + reg[s] {
          var t :| t in done + {s} && t in reg && c in reg[t];
          if t != s { assert c in ClientsOf(reg, done); }
        }
        forall c | c in ClientsOf(reg, done) + reg[s] ensures c in ClientsOf(reg, done + {s}) {
          if c !in reg[s] {
            var t :| t in done && t in reg && c in reg[t];
            assert t in done + {s};
          }
        }
      }
      cur := step.registry;
      delivered := delivered + step.delivered;
      pending := pending - {s};
    }
    out := Fanout(cur, delivered);
  }

  /** The union of every symbol's client set. */
  method AllClients<C>(reg: Registry<C>) returns (result: set<C>)
    ensures forall c :: c in result <==> exists s :: s in reg && c in reg[s]
    ensures result == Subscribed(reg)
  {
    result := {};
    var pending := reg.Keys;
    while pending != {}
      invariant pending <= reg.Keys
      invariant result == ClientsOf(reg, reg.Keys - pending)
      decreases pending
    {
      var s :| s in pending;
      assert ClientsOf(reg, reg.Keys - (pending - {s})) == result + reg[s] by {
        var done := reg.Keys - pending;
        assert reg.Keys - (pending - {s}) == done + {s};
        forall c | c in ClientsOf(reg, done + {s}) ensures c in result + reg[s] {
          var t :| t in done + {s} && t in reg && c in reg[t];
          if t != s { assert c in ClientsOf(reg, done); }
        }
        forall c | c in result + reg[s] ensures c in ClientsOf(reg, done + {s}) {
          if c !in reg[s] {
            var t :| t in done && t in reg && c in reg[t];
            assert t in done + {s};
          }
        }
      }
      result := result + reg[s];
      pending := pending - {s};
    }
  }

  /** A client that connects and then disconnects under the same symbol leaves no trace. */
  lemma DisconnectUndoesConnect<C>(reg: Registry<C>, ws: C, symbol: string)
    requires NoEmptySets(reg)
    requires symbol in reg ==> ws !in reg[symbol]
    ensures Disconnect(Connect(reg, ws, symbol), ws, symbol) == reg
  {
    var r := Disconnect(Connect(reg, ws, symbol), ws, symbol);
    if symbol in reg {
      assert (reg[symbol] + {ws}) - {ws} == reg[symbol];
      assert r.Keys == reg.Keys;
    } else {
      assert r.Keys == reg.Keys;
    }
  }

  /**
   Unlike connect and disconnect, a broadcast can leave a symbol with an empty
   client set: the one client of a symbol whose send fails is dropped but the
   symbol stays.
   */
  lemma BroadcastCanLeaveEmptySet<C>(ws: C, symbol: string)
    ensures var reg := map[symbol := {ws}];
            NoEmptySets(reg) && !NoEmptySets(Broadcast(reg, symbol, {ws}).registry)
  {
    var reg := map[symbol := {ws}];
    assert Broadcast(reg, symbol, {ws}).registry[symbol] == {};
  }

  // ---------------------------------------------------------------------------
  // Symbol normalisation
  // ---------------------------------------------------------------------------

  /** Upper-case an ASCII letter; every other character is kept. */
  function UpperChar(c: char): (u: char)
    ensures !('a' <= u <= 'z')
    ensures 'a' <= c <= 'z' ==> u as int == c as int - 32
    ensures !('a' <= c <= 'z') ==> u == c
  {
    if 'a' <= c <= 'z' then (c as int - 32) as char else c
  }

  function Upper(s: string): (r: string)
    ensures |r| == |s|
    ensures forall i :: 0 <= i < |s| ==> r[i] == UpperChar(s[i])
  {
    if s == [] then [] else [UpperChar(s[0])] + Upper(s[1..])
  }

  function ReplaceChar(s: string, from: char, to: char): (r: string)
    ensures |r| == |s|
    ensures forall i :: 0 <= i < |s| ==> r[i] == (if s[i] == from then to else s[i])
  {
    if s == [] then [] else [if s[0] == from then to else s[0]] + ReplaceChar(s[1..], from, to)
  }

  /** The path symbol as the endpoint rewrites it: upper case, then "_" becomes "/". */
  function NormalizeSymbol(s: string): (r: string)
    ensures |r| == |s|
    ensures forall i :: 0 <= i < |r| ==> r[i] != '_' && !('a' <= r[i] <= 'z')
    ensures forall i :: 0 <= i < |s| && s[i] != '_' && !('a' <= s[i] <= 'z') ==> r[i] == s[i]
    ensures forall i :: 0 <= i < |s| ==> r[i] == (if s[i] == '_' then '/' else UpperChar(s[i]))
  {
    ReplaceChar(Upper(s), '_', '/')
  }

  lemma NormalizeIdempotent(s: string)
    ensures NormalizeSymbol(NormalizeSymbol(s)) == NormalizeSymbol(s)
  {
  }

  // ---------------------------------------------------------------------------
  // Routing of published telemetry
  // ---------------------------------------------------------------------------

  /**
   A JSON member value as far as routing looks at it: absent, a string, another
   scalar (a number, a boolean or null), or a list or object. Only a list or
   object is unhashable, so only it makes the registry lookup raise.
   */
  datatype Field = Absent | Text(value: string) | Scalar(truthy: bool) | Container(truthy: bool)

  /** The `data` member of a published event. */
  datatype DataField = NoData | DataObject(symbol: Field, pair: Field) | DataNotObject

  /** The outcome of parsing a published message. */
  datatype Payload = NotJson | JsonNotObject | JsonObject(data: DataField)

  /**
   Where a message goes: to the clients of one key, to everybody, or nowhere
   because looking up `data` raised and the subscriber loop drops the message
   and reconnects.
   */
  datatype Route = ToKey(key: Field) | ToEveryone | Dropped

  /** Python truthiness of a member value. */
  predicate Truthy(f: Field) {
    match f
    case Absent => false
    case Text(v) => v != ""
    case Scalar(t) => t
    case Container(t) => t
  }

  /** The key the handler picks: `symbol`, or `pair` when `symbol` is falsy. */
  function KeyOf(symbol: Field, pair: Field): (k: Field)
    ensures Truthy(symbol) ==> k == symbol
    ensures !Truthy(symbol) ==> k == pair
  {
    if Truthy(symbol) then symbol else pair
  }

  function RouteOf(p: Payload): (r: Route)
    ensures r.ToKey? ==> Truthy(r.key) && !r.key.Container?
    ensures r.ToKey? ==> p.JsonObject? && p.data.DataObject?
    ensures p.JsonObject? && p.data.DataObject? && Truthy(p.data.symbol) && !p.data.symbol.Container? ==> r == ToKey(p.data.symbol)
    ensures p.JsonObject? && p.data.DataObject? && !Truthy(p.data.symbol) && Truthy(p.data.pair) && !p.data.pair.Container? ==> r == ToKey(p.data.pair)
    ensures r == ToEveryone <==>
              || p == NotJson
              || p == JsonObject(NoData)
              || (p.JsonObject? && p.data.DataObject? && !Truthy(p.data.symbol) && !Truthy(p.data.pair))
    ensures r == Dropped <==>
              || p == JsonNotObject
              || p == JsonObject(DataNotObject)
              || (p.JsonObject? && p.data.DataObject? && Truthy(KeyOf(p.data.symbol, p.data.pair))
                  && KeyOf(p.data.symbol, p.data.pair).Container?)
  {
    match p
    case NotJson => ToEveryone
    case JsonNotObject => Dropped
    case JsonObject(data) =>
      match data
      case NoData => ToEveryone
      case DataNotObject => Dropped
      case DataObject(symbol, pair) =>
        var key := KeyOf(symbol, pair);
        if !Truthy(key) then ToEveryone
        else if key.Container? then Dropped
        else ToKey(key)
  }

  /**
   Deliver one published message. A message routed to a symbol touches only
   that symbol's clients; a message without a usable symbol, or that is not
   JSON, goes to everybody; a dropped message changes nothing. Only text keys
   can name a registered symbol, so any other scalar key reaches nobody.
   */
  method Deliver<C>(reg: Registry<C>, p: Payload, failed: set<C>) returns (out: Fanout<C>)
    ensures out.registry.Keys == reg.Keys
    ensures RouteOf(p) == ToEveryone ==> out.delivered == Subscribed(reg) - failed
    ensures RouteOf(p) == ToEveryone ==> forall s :: s in reg ==> out.registry[s] == reg[s] - failed
    ensures RouteOf(p).ToKey? && RouteOf(p).key.Text? ==> out == Broadcast(reg, RouteOf(p).key.value, failed)
    ensures RouteOf(p) == Dropped || (RouteOf(p).ToKey? && !RouteOf(p).key.Text?) ==> out == Fanout(reg, {})
    ensures forall s :: s in reg && !(RouteOf(p) == ToEveryone || RouteOf(p) == ToKey(Text(s))) ==> out.registry[s] == reg[s]
  {
    match RouteOf(p)
    case ToEveryone =>
      out := BroadcastAll(reg, failed);
    case Dropped =>
      out := Fanout(reg, {});
    case ToKey(key) =>
      if key.Text? {
        out := Broadcast(reg, key.value, failed);
      } else {
        out := Fanout(reg, {});
      }
  }
}
