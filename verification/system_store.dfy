/**
 * The dashboard's system store (lib/stores/system-store.ts): connection and
 * engine status with order counters, an activity log capped at 200 entries
 * and an order-status list capped at 100, both newest first. The module-level
 * log counter becomes a field of the store, and `Date.now()` a parameter.
 */
module SystemStoreModel {
  import opened Common
  import opened Types

  const MaxLogEntries: nat := 200
  const MaxOrderStatuses: nat := 100

  datatype EngineMode = ACTIVE | PAUSED | OFF

  datatype LogLevel = Info | Warn | Error | Success

  /** The log id `log-{counter}-{ms}`, kept as its two numbers. */
  datatype LogId = LogId(counter: nat, ms: int)

  /** A log entry as the caller hands it in (everything but the id). */
  datatype LogInput = LogInput(timestamp: int, level: LogLevel, message: string, source: string)

  datatype ActivityLogEntry = ActivityLogEntry(id: LogId, timestamp: int, level: LogLevel, message: string, source: string)

  datatype OrderPhase = DETECTED | VALIDATING | PLACING | FILLED | FAILED | SKIPPED | PAUSED | RESUMED

  datatype OrderStatus = OrderStatus(
    orderId: Option<string>,
    status: OrderPhase,
    message: string,
    error: Option<string>,
    reason: Option<string>,
    timestamp: int,
    walletLabel: string,
    trade: Trade)

  datatype SystemStatus = SystemStatus(
    wsConnected: bool,
    wsLastMessage: int,
    pollLastSuccess: int,
    copyTradeEngine: EngineMode,
    copyTradeMessage: string,
    userBalance: real,
    ordersTotal: nat,
    ordersFilled: nat,
    ordersFailed: nat,
    ordersSkipped: nat)

  const InitialStatus := SystemStatus(false, 0, 0, OFF, "No wallets have copy-trade enabled", 0.0, 0, 0, 0, 0)

  /** The counter `incrementOrders` names. */
  datatype OrderCounter = Filled | Failed | Skipped

  /** `[x, ...s].slice(0, cap)`: `x` first, then the newest of `s` that still fit. */
  function PrependCapped<T>(x: T, s: seq<T>, cap: nat): (r: seq<T>)
    requires cap >= 1
    ensures |r| == if |s| + 1 <= cap then |s| + 1 else cap
    ensures r[0] == x
    ensures r[1..] == s[..|r| - 1]
  {
    var l := [x] + s;
    if |l| > cap then l[..cap] else l
  }

  /** incrementOrders on a status: the named counter goes up by one, nothing else changes. */
  function Incremented(st: SystemStatus, kind: OrderCounter): (r: SystemStatus)
    ensures r.ordersFilled == st.ordersFilled + (if kind == Filled then 1 else 0)
    ensures r.ordersFailed == st.ordersFailed + (if kind == Failed then 1 else 0)
    ensures r.ordersSkipped == st.ordersSkipped + (if kind == Skipped then 1 else 0)
    ensures r.(ordersFilled := st.ordersFilled, ordersFailed := st.ordersFailed, ordersSkipped := st.ordersSkipped) == st
  {
    match kind
    case Filled => st.(ordersFilled := st.ordersFilled + 1)
    case Failed => st.(ordersFailed := st.ordersFailed + 1)
    case Skipped => st.(ordersSkipped := st.ordersSkipped + 1)
  }

  /** Each increment adds exactly one to the sum of the three outcome counters. */
  lemma IncrementedAddsOne(st: SystemStatus, kind: OrderCounter)
    ensures var r := Incremented(st, kind);
      r.ordersFilled + r.ordersFailed + r.ordersSkipped == st.ordersFilled + st.ordersFailed + st.ordersSkipped + 1
  {
  }

  /** Log counters strictly decrease from the head, and none exceeds `counter`. */
  ghost predicate NewestFirst(log: seq<ActivityLogEntry>, counter: nat) {
    && (forall i :: 0 <= i < |log| ==> log[i].id.counter <= counter)
    && (forall i, j :: 0 <= i < j < |log| ==> log[i].id.counter > log[j].id.counter)
  }

  /** A log whose counters strictly decrease has pairwise distinct ids. */
  lemma NewestFirstDistinct(log: seq<ActivityLogEntry>, counter: nat)
    requires NewestFirst(log, counter)
    ensures forall i, j :: 0 <= i < j < |log| ==> log[i].id != log[j].id
  {
  }

  /** Prepending an entry numbered above the counter keeps the counters strictly decreasing. */
  lemma {:induction false} PrependKeepsNewestFirst(e: ActivityLogEntry, log: seq<ActivityLogEntry>, counter: nat)
    requires NewestFirst(log, counter) && e.id.counter == counter + 1
    ensures NewestFirst(PrependCapped(e, log, MaxLogEntries), counter + 1)
  {
    var r := PrependCapped(e, log, MaxLogEntries);
    forall i | 1 <= i < |r| ensures r[i] == log[i - 1] {
      assert r[1..][i - 1] == r[i];
    }
  }

  class SystemStore {
    var status: SystemStatus
    var activityLog: seq<ActivityLogEntry>
    var orderStatuses: seq<OrderStatus>
    /** `logCounter`: the number of log entries ever added. */
    var logCounter: nat

    /** Both lists within their caps; log ids numbered below the counter and strictly decreasing, newest first. */
    ghost predicate Valid()
      reads this
    {
      && |activityLog| <= MaxLogEntries
      && |orderStatuses| <= MaxOrderStatuses
      && NewestFirst(activityLog, logCounter)
    }

    constructor()
      ensures Valid()
      ensures status == InitialStatus && activityLog == [] && orderStatuses == [] && logCounter == 0
    {
      status := InitialStatus;
      activityLog := [];
      orderStatuses := [];
      logCounter := 0;
    }

    method SetWsConnected(connected: bool)
      requires Valid()
      modifies this
      ensures Valid()
      ensures status == old(status).(wsConnected := connected)
      ensures activityLog == old(activityLog) && orderStatuses == old(orderStatuses) && logCounter == old(logCounter)
    {
      status := status.(wsConnected := connected);
    }

    method SetWsLastMessage(timestamp: int)
      requires Valid()
      modifies this
      ensures Valid()
      ensures status == old(status).(wsLastMessage := timestamp)
      ensures activityLog == old(activityLog) && orderStatuses == old(orderStatuses) && logCounter == old(logCounter)
    {
      status := status.(wsLastMessage := timestamp);
    }

    method SetPollLastSuccess(timestamp: int)
      requires Valid()
      modifies this
      ensures Valid()
      ensures status == old(status).(pollLastSuccess := timestamp)
      ensures activityLog == old(activityLog) && orderStatuses == old(orderStatuses) && logCounter == old(logCounter)
    {
      status := status.(pollLastSuccess := timestamp);
    }

    method SetCopyTradeEngine(engine: EngineMode, message: string)
      requires Valid()
      modifies this
      ensures Valid()
      ensures status == old(status).(copyTradeEngine := engine, copyTradeMessage := message)
      ensures activityLog == old(activityLog) && orderStatuses == old(orderStatuses) && logCounter == old(logCounter)
    {
      status := status.(copyTradeEngine := engine, copyTradeMessage := message);
    }

    method SetUserBalance(balance: real)
      requires Valid()
      modifies this
      ensures Valid()
      ensures status == old(status).(userBalance := balance)
      ensures activityLog == old(activityLog) && orderStatuses == old(orderStatuses) && logCounter == old(logCounter)
    {
      status := status.(userBalance := balance);
    }

    /**
     * addLogEntry: the entry, with the next id, goes first; the log keeps its
     * 200 newest entries and its ids stay pairwise distinct.
     */
    method AddLogEntry(entry: LogInput, now: int)
      requires Valid()
      modifies this
      ensures Valid()
      ensures logCounter == old(logCounter) + 1
      ensures activityLog == PrependCapped(
        ActivityLogEntry(LogId(logCounter, now), entry.timestamp, entry.level, entry.message, entry.source),
        old(activityLog), MaxLogEntries)
      ensures forall i, j :: 0 <= i < j < |activityLog| ==> activityLog[i].id != activityLog[j].id
      ensures status == old(status) && orderStatuses == old(orderStatuses)
    {
      var e := ActivityLogEntry(LogId(logCounter + 1, now), entry.timestamp, entry.level, entry.message, entry.source);
      PrependKeepsNewestFirst(e, activityLog, logCounter);
      logCounter := logCounter + 1;
      activityLog := PrependCapped(e, activityLog, MaxLogEntries);
      NewestFirstDistinct(activityLog, logCounter);
    }

    /** addOrderStatus: the status goes first, the list keeps its 100 newest, and ordersTotal grows by one. */
    method AddOrderStatus(s: OrderStatus)
      requires Valid()
      modifies this
      ensures Valid()
      ensures orderStatuses == PrependCapped(s, old(orderStatuses), MaxOrderStatuses)
      ensures status == old(status).(ordersTotal := old(status).ordersTotal + 1)
      ensures activityLog == old(activityLog) && logCounter == old(logCounter)
    {
      orderStatuses := PrependCapped(s, orderStatuses, MaxOrderStatuses);
      status := status.(ordersTotal := status.ordersTotal + 1);
    }

    /** incrementOrders: exactly the named counter grows by one. */
    method IncrementOrders(kind: OrderCounter)
      requires Valid()
      modifies this
      ensures Valid()
      ensures status == Incremented(old(status), kind)
      ensures activityLog == old(activityLog) && orderStatuses == old(orderStatuses) && logCounter == old(logCounter)
    {
      status := Incremented(status, kind);
    }
  }
}
