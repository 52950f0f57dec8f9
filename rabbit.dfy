/** The broker listener of worker/src/logic/rabbit.py against an abstract
    broker: the declare/bind/consume sequence a connection issues, the
    reconnect-or-rethrow decision on transport errors, and the acknowledgement
    that is posted to the connection's own thread and only sent on an open
    channel. Broker I/O is a trace of channel commands; when and how the
    broker breaks a connection is an input (`Attempt`). */
module Rabbit {
  import opened Wrappers

  /** `AMQPExchangeConfig`. A routing key of `None` stands for the Python
      default `[None]`. */
  datatype ExchangeConfig = ExchangeConfig(
    queueUrl: string,
    queueName: string,
    exchangeName: string,
    exchangeType: string,
    routingKeys: seq<Option<string>>,
    durable: bool,
    prefetchCount: int,
    reconnectionInterval: int,
    autoAck: bool)

  /** The configuration with every defaulted field left at its default. */
  function DefaultConfig(queueUrl: string, exchangeName: string): (cfg: ExchangeConfig)
    ensures cfg.queueUrl == queueUrl && cfg.exchangeName == exchangeName
    ensures cfg.queueName == "" && cfg.exchangeType == "fanout" && cfg.routingKeys == [None]
    ensures !cfg.durable && cfg.prefetchCount == 1 && cfg.reconnectionInterval == 15 && cfg.autoAck
  {
    ExchangeConfig(queueUrl, "", exchangeName, "fanout", [None], false, 1, 15, true)
  }

  /** One call the listener makes on the connection or channel. */
  datatype Command =
    | Connect(url: string)
    | OpenChannel
    | ExchangeDeclare(exchange: string, exchangeType: string, durable: bool)
    | QueueDeclare(queue: string, exclusive: bool)
    | QueueBind(exchange: string, queue: string, routingKey: Option<string>)
    | BasicQos(prefetchCount: int)
    | BasicConsume(queue: string, autoAck: bool)
    | StartConsuming
    | Sleep(seconds: int)

  /** The exception that ends one connection. `Transport` is any of
      ConnectionClosed, StreamLostError and AMQPConnectionError. */
  datatype Failure = Transport | OtherError

  /** How the broker behaves on one connection: the queue name it generates
      for an unnamed queue declaration, and how the connection ends. With
      `error` set, the command at index `failAt` (counted from `Connect`)
      raises it; an index past the last command means the error arrives while
      consuming. With no `error`, every command succeeds and
      `start_consuming` returns (the broker cancelled the consumer), which
      closes the connection without an exception. */
  datatype Attempt = Attempt(serverQueue: string, failAt: nat, error: Option<Failure>)

  /** After this connection ends, the `while True` loop goes round again
      instead of letting an exception out. */
  predicate Continues(a: Attempt, handleErrors: bool)
  {
    a.error.None? || (a.error == Some(Transport) && handleErrors)
  }

  /** Every one of the connections ends in a way the loop goes round after. */
  predicate AllContinue(attempts: seq<Attempt>, handleErrors: bool)
  {
    forall j :: 0 <= j < |attempts| ==> Continues(attempts[j], handleErrors)
  }

  /** The queue the bindings and the consumer use: the server-generated name
      iff the configured name is empty. */
  function BoundQueue(cfg: ExchangeConfig, serverQueue: string): string
  {
    if cfg.queueName == "" then serverQueue else cfg.queueName
  }

  /** One `queue_bind` per routing key, in list order. */
  function Binds(exchange: string, queue: string, keys: seq<Option<string>>): (r: seq<Command>)
    ensures |r| == |keys|
  {
    if keys == [] then [] else [QueueBind(exchange, queue, keys[0])] + Binds(exchange, queue, keys[1..])
  }

  /** Everything one connection issues when nothing fails. */
  function Plan(cfg: ExchangeConfig, serverQueue: string): (r: seq<Command>)
    ensures |r| == |cfg.routingKeys| + 7
  {
    var queue := BoundQueue(cfg, serverQueue);
    [ Connect(cfg.queueUrl),
      OpenChannel,
      ExchangeDeclare(cfg.exchangeName, cfg.exchangeType, cfg.durable),
      QueueDeclare(cfg.queueName, cfg.queueName == "") ]
    + Binds(cfg.exchangeName, queue, cfg.routingKeys)
    + [ BasicQos(cfg.prefetchCount),
        BasicConsume(queue, cfg.autoAck),
        StartConsuming ]
  }

  lemma {:induction false} BindsAt(exchange: string, queue: string, keys: seq<Option<string>>)
    ensures |Binds(exchange, queue, keys)| == |keys|
    ensures forall i :: 0 <= i < |keys| ==> Binds(exchange, queue, keys)[i] == QueueBind(exchange, queue, keys[i])
  {
    if keys != [] {
      BindsAt(exchange, queue, keys[1..]);
    }
  }

  /** The command at each position of a plan. */
  lemma PlanElements(cfg: ExchangeConfig, serverQueue: string)
    ensures var p, n, q := Plan(cfg, serverQueue), |cfg.routingKeys|, BoundQueue(cfg, serverQueue);
      && |p| == n + 7
      && p[0] == Connect(cfg.queueUrl)
      && p[1] == OpenChannel
      && p[2] == ExchangeDeclare(cfg.exchangeName, cfg.exchangeType, cfg.durable)
      && p[3] == QueueDeclare(cfg.queueName, cfg.queueName == "")
      && (forall i :: 0 <= i < n ==> p[4 + i] == QueueBind(cfg.exchangeName, q, cfg.routingKeys[i]))
      && p[n + 4] == BasicQos(cfg.prefetchCount)
      && p[n + 5] == BasicConsume(q, cfg.autoAck)
      && p[n + 6] == StartConsuming
  {
    BindsAt(cfg.exchangeName, BoundQueue(cfg, serverQueue), cfg.routingKeys);
  }

  /** The order of one connection's setup: declare the exchange, declare the
      queue (exclusive iff unnamed), bind it once per routing key in list
      order, all to the same exchange and queue, set the prefetch count, then
      consume with the configured auto-ack mode; no other command binds. */
  lemma PlanShape(cfg: ExchangeConfig, serverQueue: string)
    ensures var p, n, q := Plan(cfg, serverQueue), |cfg.routingKeys|, BoundQueue(cfg, serverQueue);
      && |p| == n + 7
      && p[0] == Connect(cfg.queueUrl)
      && p[1] == OpenChannel
      && p[2] == ExchangeDeclare(cfg.exchangeName, cfg.exchangeType, cfg.durable)
      && p[3] == QueueDeclare(cfg.queueName, cfg.queueName == "")
      && (forall i :: 0 <= i < n ==> p[4 + i] == QueueBind(cfg.exchangeName, q, cfg.routingKeys[i]))
      && p[n + 4] == BasicQos(cfg.prefetchCount)
      && p[n + 5] == BasicConsume(q, cfg.autoAck)
      && p[n + 6] == StartConsuming
      && (forall j :: 0 <= j < |p| ==> (p[j].QueueBind? <==> 4 <= j < n + 4))
  {
    PlanElements(cfg, serverQueue);
    BindsAt(cfg.exchangeName, BoundQueue(cfg, serverQueue), cfg.routingKeys);
  }

  /** The queue is declared exclusive iff it is unnamed, and consumed under
      the server's name iff it is unnamed. */
  lemma UnnamedQueueIsExclusive(cfg: ExchangeConfig, serverQueue: string)
    ensures QueueDeclare(cfg.queueName, true) in Plan(cfg, serverQueue) <==> cfg.queueName == ""
    ensures BasicConsume(serverQueue, cfg.autoAck) in Plan(cfg, serverQueue) <== cfg.queueName == ""
    ensures BasicConsume(cfg.queueName, cfg.autoAck) in Plan(cfg, serverQueue) <== cfg.queueName != ""
  {
    var p := Plan(cfg, serverQueue);
    PlanShape(cfg, serverQueue);
    assert p[|cfg.routingKeys| + 5] in p;
    if QueueDeclare(cfg.queueName, true) in p {
      var j :| 0 <= j < |p| && p[j] == QueueDeclare(cfg.queueName, true);
      assert j == 3;
    }
  }

  /** The defaults give a server-named exclusive queue on a fanout exchange,
      bound once with no routing key, prefetch 1 and auto-ack on. */
  lemma DefaultPlan(queueUrl: string, exchangeName: string, serverQueue: string)
    ensures Plan(DefaultConfig(queueUrl, exchangeName), serverQueue) ==
      [ Connect(queueUrl), OpenChannel,
        ExchangeDeclare(exchangeName, "fanout", false),
        QueueDeclare("", true),
        QueueBind(exchangeName, serverQueue, None),
        BasicQos(1),
        BasicConsume(serverQueue, true),
        StartConsuming ]
    ensures DefaultConfig(queueUrl, exchangeName).reconnectionInterval == 15
  {
    PlanShape(DefaultConfig(queueUrl, exchangeName), serverQueue);
  }

  /** How many commands one connection issues: up to and including the one
      that raises. */
  function Issued(cfg: ExchangeConfig, attempt: Attempt): nat
  {
    if attempt.error.Some? && attempt.failAt < |cfg.routingKeys| + 7 then attempt.failAt + 1
    else |cfg.routingKeys| + 7
  }

  /** The first k commands of a plan, once the k-th is known to be cmd. */
  lemma PrefixStep(plan: seq<Command>, k: nat, cmd: Command)
    requires k < |plan| && plan[k] == cmd
    ensures plan[..k] + [cmd] == plan[..k + 1]
  {
  }

  /** Issues one more command of the plan; it raises iff it is the one the
      broker fails. */
  method Issue(ghost plan: seq<Command>, issued: seq<Command>, cmd: Command, failAt: nat)
    returns (next: seq<Command>, raised: bool)
    requires |issued| < |plan| && issued == plan[..|issued|] && plan[|issued|] == cmd
    requires failAt >= |issued|
    ensures next == plan[..|issued| + 1]
    ensures raised <==> failAt == |issued|
  {
    PrefixStep(plan, |issued|, cmd);
    next := issued + [cmd];
    raised := failAt < |next|;
  }

  /** One pass of the `with pika.BlockingConnection(...)` block: the commands
      are issued in order until one raises; the raising command is included. */
  method RunSession(cfg: ExchangeConfig, attempt: Attempt) returns (issued: seq<Command>)
    ensures issued == Plan(cfg, attempt.serverQueue)[..Issued(cfg, attempt)]
  {
    ghost var plan := Plan(cfg, attempt.serverQueue);
    PlanElements(cfg, attempt.serverQueue);
    var n := |cfg.routingKeys|;
    var failAt := if attempt.error.Some? then attempt.failAt else n + 7;
    var raised;
    issued, raised := Issue(plan, [], Connect(cfg.queueUrl), failAt);
    if raised { return; }
    issued, raised := Issue(plan, issued, OpenChannel, failAt);
    if raised { return; }
    issued, raised := Issue(plan, issued, ExchangeDeclare(cfg.exchangeName, cfg.exchangeType, cfg.durable), failAt);
    if raised { return; }
    issued, raised := Issue(plan, issued, QueueDeclare(cfg.queueName, cfg.queueName == ""), failAt);
    if raised { return; }
    var queue := if cfg.queueName == "" then attempt.serverQueue else cfg.queueName;
    for i := 0 to n
      invariant issued == plan[..4 + i]
      invariant failAt >= 4 + i
    {
      issued, raised := Issue(plan, issued, QueueBind(cfg.exchangeName, queue, cfg.routingKeys[i]), failAt);
      if raised { return; }
    }
    issued, raised := Issue(plan, issued, BasicQos(cfg.prefetchCount), failAt);
    if raised { return; }
    issued, raised := Issue(plan, issued, BasicConsume(queue, cfg.autoAck), failAt);
    if raised { return; }
    issued, raised := Issue(plan, issued, StartConsuming, failAt);
    assert issued == plan;
  }

  /** What ended the listener: an exception escaped it, or it is still
      running after the connections the model was given. */
  datatype ListenOutcome = Raised(failure: Failure) | StillListening

  /** `listen_on_exchange` over the given sequence of connections: after
      `start_consuming` returns it reconnects at once; after a handled
      transport error it sleeps first; any other exception escapes. The
      listener stops exactly when a connection ends in an exception that is
      not handled. */
  function Listen(cfg: ExchangeConfig, handleErrors: bool, attempts: seq<Attempt>): (r: (seq<Command>, ListenOutcome))
    ensures r.1 == StillListening <==> AllContinue(attempts, handleErrors)
    decreases |attempts|
  {
    if attempts == [] then ([], StillListening)
    else
      var session := Plan(cfg, attempts[0].serverQueue)[..Issued(cfg, attempts[0])];
      if attempts[0].error.None? then
        var rest := Listen(cfg, handleErrors, attempts[1..]);
        assert forall j :: 1 <= j < |attempts| ==> attempts[j] == attempts[1..][j - 1];
        (session + rest.0, rest.1)
      else if attempts[0].error == Some(Transport) && handleErrors then
        var rest := Listen(cfg, handleErrors, attempts[1..]);
        assert forall j :: 1 <= j < |attempts| ==> attempts[j] == attempts[1..][j - 1];
        (session + [Sleep(cfg.reconnectionInterval)] + rest.0, rest.1)
      else
        (session, Raised(attempts[0].error.value))
  }

  /** The listener raises the exception of the first connection that ends
      in one it does not handle. */
  lemma {:induction false} ListenRaisesFirstUnhandled(cfg: ExchangeConfig, handleErrors: bool, attempts: seq<Attempt>, j: nat)
    requires j < |attempts| && !Continues(attempts[j], handleErrors)
    requires forall i :: 0 <= i < j ==> Continues(attempts[i], handleErrors)
    ensures Listen(cfg, handleErrors, attempts).1 == Raised(attempts[j].error.value)
  {
    if j > 0 {
      assert attempts[1..][j - 1] == attempts[j];
      assert forall i :: 0 <= i < j - 1 ==> attempts[1..][i] == attempts[i + 1];
      ListenRaisesFirstUnhandled(cfg, handleErrors, attempts[1..], j - 1);
      assert Continues(attempts[0], handleErrors);
    }
  }

  /** One turn of the loop: the first connection's commands, a sleep only
      after a handled transport error, then the rest of the listener; or the
      escaping exception. */
  lemma ListenStep(cfg: ExchangeConfig, handleErrors: bool, attempts: seq<Attempt>)
    requires |attempts| >= 1
    ensures var session, rest := Plan(cfg, attempts[0].serverQueue)[..Issued(cfg, attempts[0])],
                                 Listen(cfg, handleErrors, attempts[1..]);
      && (attempts[0].error.None? ==> Listen(cfg, handleErrors, attempts) == (session + rest.0, rest.1))
      && (attempts[0].error == Some(Transport) && handleErrors ==>
            Listen(cfg, handleErrors, attempts) == (session + [Sleep(cfg.reconnectionInterval)] + rest.0, rest.1))
      && (!Continues(attempts[0], handleErrors) ==>
            Listen(cfg, handleErrors, attempts) == (session, Raised(attempts[0].error.value)))
  {
  }

  /** The reconnect loop: after a transport error it sleeps
      `reconnection_interval` seconds and runs the whole setup again, unless
      errors are not handled, in which case it re-raises; any other exception
      escapes. */
  method ListenOnExchange(cfg: ExchangeConfig, handleErrors: bool, attempts: seq<Attempt>)
    returns (trace: seq<Command>, outcome: ListenOutcome)
    ensures (trace, outcome) == Listen(cfg, handleErrors, attempts)
  {
    trace := [];
    var k := 0;
    while k < |attempts|
      invariant 0 <= k <= |attempts|
      invariant trace + Listen(cfg, handleErrors, attempts[k..]).0 == Listen(cfg, handleErrors, attempts).0
      invariant Listen(cfg, handleErrors, attempts[k..]).1 == Listen(cfg, handleErrors, attempts).1
    {
      var issued := RunSession(cfg, attempts[k]);
      ListenStep(cfg, handleErrors, attempts[k..]);
      assert attempts[k..][1..] == attempts[k + 1..];
      ghost var rest := Listen(cfg, handleErrors, attempts[k + 1..]);
      if attempts[k].error.None? {
        assert trace + (issued + rest.0) == (trace + issued) + rest.0;
        trace := trace + issued;
        k := k + 1;
      } else if attempts[k].error == Some(Transport) && handleErrors {
        var step := issued + [Sleep(cfg.reconnectionInterval)];
        assert trace + (step + rest.0) == (trace + step) + rest.0;
        trace := trace + step;
        k := k + 1;
      } else {
        trace := trace + issued;
        outcome := Raised(attempts[k].error.value);
        return;
      }
    }
    outcome := StillListening;
    assert attempts[k..] == [];
    assert trace + [] == trace;
  }

  /** After a handled transport error the listener waits the configured
      interval and then repeats the whole setup from `Connect`, as far as the
      next connection gets. */
  lemma ReconnectRepeatsSetup(cfg: ExchangeConfig, attempts: seq<Attempt>)
    requires |attempts| >= 2 && attempts[0].error == Some(Transport)
    ensures var t, k, k1 := Listen(cfg, true, attempts).0, Issued(cfg, attempts[0]), Issued(cfg, attempts[1]);
      && |t| >= k + 1 + k1
      && t[..k] == Plan(cfg, attempts[0].serverQueue)[..k]
      && t[k] == Sleep(cfg.reconnectionInterval)
      && t[k + 1..k + 1 + k1] == Plan(cfg, attempts[1].serverQueue)[..k1]
      && t[k + 1] == Connect(cfg.queueUrl)
  {
    ListenStep(cfg, true, attempts);
    assert attempts[1..][0] == attempts[1];
    SessionPrefix(cfg, true, attempts[1..]);
    PlanStartsConnected(cfg, attempts[1].serverQueue);
    var k := Issued(cfg, attempts[0]);
    SleepBetween(Plan(cfg, attempts[0].serverQueue)[..k], Sleep(cfg.reconnectionInterval),
                 Listen(cfg, true, attempts[1..]).0, Issued(cfg, attempts[1]));
  }

  /** Where the parts of a session, one command and what follows lie. */
  lemma SleepBetween(session: seq<Command>, cmd: Command, rest: seq<Command>, m: nat)
    requires m <= |rest|
    ensures var t := session + [cmd] + rest;
      && t[..|session|] == session
      && t[|session|] == cmd
      && t[|session| + 1..|session| + 1 + m] == rest[..m]
  {
  }

  /** A listener's commands start with the first connection's setup, as far
      as it got. */
  lemma SessionPrefix(cfg: ExchangeConfig, handleErrors: bool, attempts: seq<Attempt>)
    requires |attempts| >= 1
    ensures var t, k := Listen(cfg, handleErrors, attempts).0, Issued(cfg, attempts[0]);
      |t| >= k && t[..k] == Plan(cfg, attempts[0].serverQueue)[..k]
  {
  }

  /** When `start_consuming` returns, the connection closes without an
      exception and the listener reconnects at once, whether or not it
      handles errors: no sleep comes between the finished setup and the next
      `Connect`. */
  lemma ConsumingReturnedReconnects(cfg: ExchangeConfig, handleErrors: bool, attempts: seq<Attempt>)
    requires |attempts| >= 2 && attempts[0].error.None?
    ensures var t, n := Listen(cfg, handleErrors, attempts).0, |cfg.routingKeys| + 7;
      && |t| > n
      && t[..n] == Plan(cfg, attempts[0].serverQueue)
      && t[n] == Connect(cfg.queueUrl)
      && forall j :: 0 <= j <= n ==> !t[j].Sleep?
    ensures Listen(cfg, handleErrors, attempts).1 == Listen(cfg, handleErrors, attempts[1..]).1
  {
    var n := |cfg.routingKeys| + 7;
    var plan := Plan(cfg, attempts[0].serverQueue);
    ListenStep(cfg, handleErrors, attempts);
    SessionPrefix(cfg, handleErrors, attempts[1..]);
    PlanStartsConnected(cfg, attempts[1].serverQueue);
    PlanNeverSleeps(cfg, attempts[0].serverQueue);
    assert plan[..n] == plan;
    var rest := Listen(cfg, handleErrors, attempts[1..]).0;
    var t := plan + rest;
    assert Listen(cfg, handleErrors, attempts).0 == t;
    assert t[..n] == plan;
    assert rest[0] == Connect(cfg.queueUrl);
    assert t[n] == rest[0];
    forall j | 0 <= j < n ensures !t[j].Sleep? {
      assert t[j] == plan[j];
    }
  }

  /** Every plan begins with `Connect`. */
  lemma PlanStartsConnected(cfg: ExchangeConfig, serverQueue: string)
    ensures Plan(cfg, serverQueue)[0] == Connect(cfg.queueUrl)
  {
  }

  /** A connection's setup never sleeps: only the reconnect loop does. */
  lemma PlanNeverSleeps(cfg: ExchangeConfig, serverQueue: string)
    ensures forall j :: 0 <= j < |Plan(cfg, serverQueue)| ==> !Plan(cfg, serverQueue)[j].Sleep?
  {
    PlanShape(cfg, serverQueue);
  }

  /** Without internal error handling, the first transport error ends the
      listener after a single connection. */
  lemma UnhandledTransportErrorRethrows(cfg: ExchangeConfig, attempts: seq<Attempt>)
    requires |attempts| >= 1 && attempts[0].error == Some(Transport)
    ensures Listen(cfg, false, attempts).1 == Raised(Transport)
    ensures Sleep(cfg.reconnectionInterval) !in Listen(cfg, false, attempts).0
  {
    PlanShape(cfg, attempts[0].serverQueue);
  }

  /** Any exception other than a transport error escapes the listener, even
      when errors are handled, and it never sleeps for it. */
  lemma OtherErrorEscapes(cfg: ExchangeConfig, handleErrors: bool, attempts: seq<Attempt>)
    requires |attempts| >= 1 && attempts[0].error == Some(OtherError)
    ensures Listen(cfg, handleErrors, attempts).1 == Raised(OtherError)
    ensures |Listen(cfg, handleErrors, attempts).0| == Issued(cfg, attempts[0])
  {
  }

  /** A delivery tag, as handed to the message callback. */
  type DeliveryTag = int

  /** The channel as the acknowledgement sees it. */
  class Channel {
    var isOpen: bool
    var acked: seq<DeliveryTag>
    var warnings: nat

    constructor (isOpen: bool)
      ensures this.isOpen == isOpen && acked == [] && warnings == 0
    {
      this.isOpen := isOpen;
      acked := [];
      warnings := 0;
    }
  }

  /** The `ack` closure posted to the connection: channel and tag. */
  datatype PendingAck = PendingAck(channel: Channel, tag: DeliveryTag)

  /** The connection as the acknowledgement sees it: the callbacks posted
      with `add_callback_threadsafe`, in the order they were posted. */
  class Connection {
    var callbacks: seq<PendingAck>

    constructor ()
      ensures callbacks == []
    {
      callbacks := [];
    }
  }

  /** `ack_message`: the acknowledgement is never sent from the calling
      thread; it is posted to the connection as a callback, and the channel
      is not touched. */
  method AckMessage(connection: Connection, channel: Channel, tag: DeliveryTag)
    modifies connection
    ensures connection.callbacks == old(connection.callbacks) + [PendingAck(channel, tag)]
  {
    connection.callbacks := connection.callbacks + [PendingAck(channel, tag)];
  }

  /** The posted `ack` closure, run on the connection's thread: `basic_ack`
      only when the channel is open, otherwise only a warning. */
  method RunPendingAck(cb: PendingAck)
    modifies cb.channel
    ensures cb.channel.isOpen == old(cb.channel.isOpen)
    ensures old(cb.channel.isOpen) ==>
              cb.channel.acked == old(cb.channel.acked) + [cb.tag] && cb.channel.warnings == old(cb.channel.warnings)
    ensures !old(cb.channel.isOpen) ==>
              cb.channel.acked == old(cb.channel.acked) && cb.channel.warnings == old(cb.channel.warnings) + 1
  {
    if cb.channel.isOpen {
      cb.channel.acked := cb.channel.acked + [cb.tag];
    } else {
      cb.channel.warnings := cb.channel.warnings + 1;
    }
  }
}
