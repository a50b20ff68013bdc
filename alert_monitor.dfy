/**
 * The alert evaluation engine of lib/alert-monitor.ts: the `AlertMonitor` class
 * with its in-memory price history and its running flag, the trigger
 * predicate, and one evaluation cycle.
 *
 * The collaborators are inputs. The alert store's `getActiveAlerts` result is
 * `loaded` (None when the query throws); the quote fetcher's batched result is
 * `prices` (None when the fetch throws); the notifier and the store update are
 * an `Oracle` naming the alert ids whose send, or whose update, throws.
 */
module AlertMonitor {
  import opened Js

  // ---------------------------------------------------------------------------
  // Data
  // ---------------------------------------------------------------------------

  /** The owner's Telegram columns joined onto each loaded alert. */
  datatype AlertUser = AlertUser(telegramId: Option<string>, telegramVerified: bool)

  /**
   * `AlertCheck`: an alert row as the monitor loads it. The kind and the
   * comparison are the stored strings; the two thresholds are nullable columns.
   */
  datatype AlertCheck = AlertCheck(
    id: string, userId: string, coinId: string, coinName: string, coinSymbol: string,
    alertType: string, targetPrice: Option<real>, percentageChange: Option<real>,
    comparison: string, isActive: bool, triggered: bool, users: AlertUser)

  /** An entry of the price history. */
  datatype Snapshot = Snapshot(current: real, previous: real, change: real, changePercent: real)

  type History = map<string, Snapshot>

  /** Which sends and which store updates throw, by alert id. */
  datatype Oracle = Oracle(sendThrows: set<string>, updateThrows: set<string>)

  /**
   * What one cycle did: the coin ids it asked quotes for (None when it asked
   * for none), the alerts whose notification was delivered, and the alerts the
   * store marked `{triggered: true, is_active: false}`, in processing order.
   */
  datatype CycleReport = CycleReport(requested: Option<seq<string>>, notified: seq<string>, updated: seq<string>)

  datatype CycleResult = CycleResult(history: History, report: CycleReport)

  /** `getStatus()`: the running flag, the number of tracked coins and the history itself. */
  datatype Status = Status(isRunning: bool, trackedCoins: nat, priceHistory: History)

  // ---------------------------------------------------------------------------
  // Price history
  // ---------------------------------------------------------------------------

  /** A nullable number used in `>=`, `<=` or unary minus: JavaScript reads null as 0. */
  function NumberOrZero(v: Option<real>): real
  {
    if v.Some? then v.value else 0.0
  }

  function Get(history: History, coinId: string): Option<Snapshot>
  {
    if coinId in history then Some(history[coinId]) else None
  }

  /** `priceData[coin]?.usd` is truthy: there is a quote and it is not 0. */
  predicate HasQuote(prices: map<string, real>, coinId: string)
  {
    coinId in prices && prices[coinId] != 0.0
  }

  /**
   * The entry written for a coin quoted at `price`: the previous price is the
   * old entry's current price when it is there and nonzero, else the quote.
   */
  function NextSnapshot(prior: Option<Snapshot>, price: real): Snapshot
  {
    var previous := if prior.Some? && prior.value.current != 0.0 then prior.value.current else price;
    Snapshot(price, previous, price - previous,
             if previous > 0.0 then (price - previous) / previous * 100.0 else 0.0)
  }

  /**
   * The snapshot holds the new quote; change is its difference to the previous
   * price, and the percentage scales that difference by the previous price when
   * it is positive and is 0 otherwise. A first observation has no change.
   */
  lemma NextSnapshotSpec(prior: Option<Snapshot>, price: real)
    ensures var s := NextSnapshot(prior, price);
      && s.current == price
      && s.previous == (if prior.Some? && prior.value.current != 0.0 then prior.value.current else price)
      && s.change == s.current - s.previous
      && (s.previous > 0.0 ==> s.changePercent * s.previous == 100.0 * s.change)
      && (s.previous <= 0.0 ==> s.changePercent == 0.0)
      && (prior.None? ==> s.change == 0.0 && s.changePercent == 0.0)
  {
    var s := NextSnapshot(prior, price);
    if s.previous > 0.0 {
      assert s.changePercent * s.previous == (price - s.previous) / s.previous * s.previous * 100.0;
    }
  }

  /** Seeing the same nonzero quote twice in a row records no change at all. */
  lemma RepeatedQuoteHasNoChange(prior: Option<Snapshot>, price: real)
    requires price != 0.0
    ensures var s := NextSnapshot(Some(NextSnapshot(prior, price)), price);
            s.previous == price && s.current == price && s.change == 0.0 && s.changePercent == 0.0
  {
  }

  // ---------------------------------------------------------------------------
  // shouldTriggerAlert
  // ---------------------------------------------------------------------------

  /**
   * `shouldTriggerAlert`, evaluated against the history after the cycle has
   * written the alert's coin.
   */
  predicate ShouldTrigger(alert: AlertCheck, currentPrice: real, history: History)
  {
    if alert.alertType == "price" then
      var target := NumberOrZero(alert.targetPrice);
      if alert.comparison == "above" then currentPrice >= target
      else if alert.comparison == "below" then currentPrice <= target
      else false
    else if alert.alertType == "percentage" then
      if alert.coinId !in history || history[alert.coinId].previous == 0.0 then false
      else
        var changePercent := history[alert.coinId].changePercent;
        var target := NumberOrZero(alert.percentageChange);
        if alert.comparison == "increase" then changePercent >= target
        else if alert.comparison == "decrease" then changePercent <= -target
        else false
    else false
  }

  /** Price alerts: `above` fires iff the quote is at least the target, `below` iff at most; both inclusive. */
  lemma PriceAlertSpec(alert: AlertCheck, currentPrice: real, history: History)
    requires alert.alertType == "price" && alert.targetPrice.Some?
    ensures alert.comparison == "above" ==>
              (ShouldTrigger(alert, currentPrice, history) <==> currentPrice >= alert.targetPrice.value)
    ensures alert.comparison == "below" ==>
              (ShouldTrigger(alert, currentPrice, history) <==> currentPrice <= alert.targetPrice.value)
    ensures alert.comparison != "above" && alert.comparison != "below" ==> !ShouldTrigger(alert, currentPrice, history)
    ensures currentPrice == alert.targetPrice.value && (alert.comparison == "above" || alert.comparison == "below") ==>
              ShouldTrigger(alert, currentPrice, history)
  {
  }

  /** A percentage alert never fires without a history entry for its coin or with a previous price of 0. */
  lemma PercentageNeedsHistory(alert: AlertCheck, currentPrice: real, history: History)
    requires alert.alertType == "percentage"
    requires alert.coinId !in history || history[alert.coinId].previous == 0.0
    ensures !ShouldTrigger(alert, currentPrice, history)
  {
  }

  /**
   * With history, `increase` fires iff the signed change is at least the
   * target, `decrease` iff it is at most minus the target; any other
   * comparison never fires.
   */
  lemma PercentageAlertSpec(alert: AlertCheck, currentPrice: real, history: History)
    requires alert.alertType == "percentage" && alert.percentageChange.Some?
    requires alert.coinId in history && history[alert.coinId].previous != 0.0
    ensures var cp, t := history[alert.coinId].changePercent, alert.percentageChange.value;
      && (alert.comparison == "increase" ==> (ShouldTrigger(alert, currentPrice, history) <==> cp >= t))
      && (alert.comparison == "decrease" ==> (ShouldTrigger(alert, currentPrice, history) <==> cp <= -t))
      && (alert.comparison != "increase" && alert.comparison != "decrease" ==> !ShouldTrigger(alert, currentPrice, history))
  {
  }

  /** An alert of any other kind never fires. */
  lemma UnknownKindNeverFires(alert: AlertCheck, currentPrice: real, history: History)
    requires alert.alertType != "price" && alert.alertType != "percentage"
    ensures !ShouldTrigger(alert, currentPrice, history)
  {
  }

  /**
   * Read against a positive previous price q, an `increase` of t percent fires
   * exactly when the quote reaches q * (1 + t/100), and a `decrease` exactly when
   * it falls to q * (1 - t/100).
   */
  lemma PercentageInPriceTerms(prior: Option<Snapshot>, price: real, t: real)
    requires NextSnapshot(prior, price).previous > 0.0
    ensures var s := NextSnapshot(prior, price);
      && (s.changePercent >= t <==> price >= s.previous * (1.0 + t / 100.0))
      && (s.changePercent <= -t <==> price <= s.previous * (1.0 - t / 100.0))
  {
    var s := NextSnapshot(prior, price);
    var q := s.previous;
    NextSnapshotSpec(prior, price);
    assert s.changePercent * q == 100.0 * (price - q);
    assert s.changePercent == 100.0 * (price - q) / q;
    ScaledComparison(s.changePercent, q, price, t);
  }

  /** c * q == 100 (p - q) with q > 0 turns a bound on c into a bound on p. */
  lemma ScaledComparison(c: real, q: real, p: real, t: real)
    requires q > 0.0 && c * q == 100.0 * (p - q)
    ensures c >= t <==> p >= q * (1.0 + t / 100.0)
    ensures c <= -t <==> p <= q * (1.0 - t / 100.0)
  {
    assert q * (1.0 + t / 100.0) == q + q * t / 100.0;
    assert q * (1.0 - t / 100.0) == q - q * t / 100.0;
    if c >= t {
      assert c * q >= t * q;
    } else {
      assert c * q < t * q;
    }
    if c <= -t {
      assert c * q <= -t * q;
    } else {
      assert c * q > -t * q;
    }
  }

  // ---------------------------------------------------------------------------
  // triggerAlert
  // ---------------------------------------------------------------------------

  /** The owner can be messaged: a non-empty Telegram id and the verified flag. */
  predicate CanNotify(user: AlertUser)
  {
    TruthyString(user.telegramId) && user.telegramVerified
  }

  /** The notification of a firing alert is delivered. */
  predicate Delivered(alert: AlertCheck, oracle: Oracle)
  {
    CanNotify(alert.users) && alert.id !in oracle.sendThrows
  }

  /**
   * The store marks a firing alert: the update runs after the send, so a send
   * that throws skips it, and the update itself may throw.
   */
  predicate MarkedTriggered(alert: AlertCheck, oracle: Oracle)
  {
    !(CanNotify(alert.users) && alert.id in oracle.sendThrows) && alert.id !in oracle.updateThrows
  }

  // ---------------------------------------------------------------------------
  // One cycle, as a function of the old history and the inputs
  // ---------------------------------------------------------------------------

  /** What processing one alert leaves behind. */
  datatype Step = Step(history: History, fired: bool, delivered: bool, marked: bool)

  /** One iteration of the loop in `checkAlerts`. */
  function ProcessAlert(history: History, alert: AlertCheck, prices: map<string, real>, oracle: Oracle): Step
  {
    if !HasQuote(prices, alert.coinId) then Step(history, false, false, false)
    else
      var price := prices[alert.coinId];
      var written := history[alert.coinId := NextSnapshot(Get(history, alert.coinId), price)];
      if ShouldTrigger(alert, price, written) then
        Step(written, true, Delivered(alert, oracle), MarkedTriggered(alert, oracle))
      else Step(written, false, false, false)
  }

  /** The loop of `checkAlerts` over `alerts`, in order. */
  function ProcessAll(history: History, alerts: seq<AlertCheck>, prices: map<string, real>, oracle: Oracle): (r: CycleResult)
    decreases |alerts|
  {
    if alerts == [] then CycleResult(history, CycleReport(None, [], []))
    else
      var r := ProcessAll(history, alerts[..|alerts| - 1], prices, oracle);
      var last := alerts[|alerts| - 1];
      var s := ProcessAlert(r.history, last, prices, oracle);
      CycleResult(s.history, CycleReport(None,
        r.report.notified + (if s.delivered then [last.id] else []),
        r.report.updated + (if s.marked then [last.id] else [])))
  }

  /** Processing one more alert extends the run by that alert's step. */
  lemma ProcessAllAppend(history: History, alerts: seq<AlertCheck>, alert: AlertCheck,
                         prices: map<string, real>, oracle: Oracle)
    ensures var r := ProcessAll(history, alerts, prices, oracle);
            var s := ProcessAlert(r.history, alert, prices, oracle);
            ProcessAll(history, alerts + [alert], prices, oracle)
            == CycleResult(s.history, CycleReport(None,
                 r.report.notified + (if s.delivered then [alert.id] else []),
                 r.report.updated + (if s.marked then [alert.id] else [])))
  {
    assert (alerts + [alert])[..|alerts|] == alerts;
  }

  /** `[...new Set(xs)]`: the distinct elements in order of first occurrence. */
  function Distinct(xs: seq<string>): (d: seq<string>)
    ensures forall x :: x in d <==> x in xs
    ensures forall i, j :: 0 <= i < j < |d| ==> d[i] != d[j]
    decreases |xs|
  {
    if xs == [] then []
    else
      var d := Distinct(xs[..|xs| - 1]);
      var last := xs[|xs| - 1];
      assert forall x :: x in xs <==> x in xs[..|xs| - 1] || x == last;
      if last in d then d else d + [last]
  }

  function CoinIds(alerts: seq<AlertCheck>): seq<string>
  {
    Distinct(seq(|alerts|, k requires 0 <= k < |alerts| => alerts[k].coinId))
  }

  /**
   * `checkAlerts`: a failed load, or an empty alert list, ends the cycle before
   * any quote is asked for; a failed fetch ends it before any alert is
   * processed; otherwise every loaded alert is processed in order.
   */
  function Cycle(history: History, loaded: Option<seq<AlertCheck>>, prices: Option<map<string, real>>,
                 oracle: Oracle): CycleResult
  {
    if loaded.None? || loaded.value == [] then CycleResult(history, CycleReport(None, [], []))
    else
      var requested := Some(CoinIds(loaded.value));
      if prices.None? then CycleResult(history, CycleReport(requested, [], []))
      else
        var r := ProcessAll(history, loaded.value, prices.value, oracle);
        CycleResult(r.history, CycleReport(requested, r.report.notified, r.report.updated))
  }

  // ---------------------------------------------------------------------------
  // The monitor object
  // ---------------------------------------------------------------------------

  class Monitor {
    var priceHistory: History
    var isRunning: bool

    constructor ()
      ensures priceHistory == map[] && !isRunning
    {
      priceHistory := map[];
      isRunning := false;
    }

    /**
     * `start()`: a no-op while running; otherwise sets the flag and runs the
     * first cycle. The repeating timer it arms is not modelled.
     */
    method Start(loaded: Option<seq<AlertCheck>>, prices: Option<map<string, real>>, oracle: Oracle)
      returns (report: Option<CycleReport>)
      modifies this
      ensures isRunning
      ensures old(isRunning) ==> report.None? && priceHistory == old(priceHistory)
      ensures !old(isRunning) ==>
                && report.Some?
                && Cycle(old(priceHistory), loaded, prices, oracle) == CycleResult(priceHistory, report.value)
    {
      if isRunning {
        return None;
      }
      isRunning := true;
      var r := CheckAlerts(loaded, prices, oracle);
      report := Some(r);
    }

    /** `stop()`: clears the flag only; the history is kept. */
    method Stop()
      modifies this
      ensures !isRunning && priceHistory == old(priceHistory)
    {
      isRunning := false;
    }

    /** `getStatus()`: reads the state and changes nothing. */
    method GetStatus() returns (status: Status)
      ensures status.isRunning == isRunning
      ensures status.trackedCoins == |priceHistory.Keys|
      ensures status.priceHistory == priceHistory
    {
      status := Status(isRunning, |priceHistory.Keys|, priceHistory);
    }

    /** `manualCheck()`: one cycle, whatever the running flag says. */
    method ManualCheck(loaded: Option<seq<AlertCheck>>, prices: Option<map<string, real>>, oracle: Oracle)
      returns (report: CycleReport)
      modifies this
      ensures isRunning == old(isRunning)
      ensures Cycle(old(priceHistory), loaded, prices, oracle) == CycleResult(priceHistory, report)
    {
      report := CheckAlerts(loaded, prices, oracle);
    }

    /**
     * `triggerAlert`: sends the notification when the owner can be messaged,
     * then marks the alert in the store; an error thrown by either is caught
     * here. Returns whether the send was delivered and whether the store update ran.
     */
    method TriggerAlert(alert: AlertCheck, oracle: Oracle) returns (delivered: bool, marked: bool)
      ensures delivered <==> Delivered(alert, oracle)
      ensures marked <==> MarkedTriggered(alert, oracle)
    {
      delivered, marked := false, false;
      if TruthyString(alert.users.telegramId) && alert.users.telegramVerified {
        if alert.id in oracle.sendThrows {
          return;  // the send threw: the catch block skips the store update
        }
        delivered := true;
      }
      if alert.id in oracle.updateThrows {
        return;
      }
      marked := true;
    }

    /** `checkAlerts`: the cycle, writing the history entry of each quoted alert's coin in turn. */
    method CheckAlerts(loaded: Option<seq<AlertCheck>>, prices: Option<map<string, real>>, oracle: Oracle)
      returns (report: CycleReport)
      modifies this
      ensures isRunning == old(isRunning)
      ensures Cycle(old(priceHistory), loaded, prices, oracle) == CycleResult(priceHistory, report)
    {
      if loaded.None? || |loaded.value| == 0 {
        return CycleReport(None, [], []);
      }
      var alerts := loaded.value;
      var coinIds := CoinIds(alerts);
      if prices.None? {
        return CycleReport(Some(coinIds), [], []);
      }
      var priceData := prices.value;
      var notified: seq<string> := [];
      var updated: seq<string> := [];
      var i := 0;
      while i < |alerts|
        invariant 0 <= i <= |alerts|
        invariant isRunning == old(isRunning)
        invariant ProcessAll(old(priceHistory), alerts[..i], priceData, oracle)
                  == CycleResult(priceHistory, CycleReport(None, notified, updated))
      {
        var alert := alerts[i];
        ghost var step := ProcessAlert(priceHistory, alert, priceData, oracle);
        assert alerts[..i + 1] == alerts[..i] + [alert];
        ProcessAllAppend(old(priceHistory), alerts[..i], alert, priceData, oracle);
        if alert.coinId !in priceData || priceData[alert.coinId] == 0.0 {
          i := i + 1;
          continue;
        }
        var coinPrice := priceData[alert.coinId];
        var previousPrice :=
          if alert.coinId in priceHistory && priceHistory[alert.coinId].current != 0.0
          then priceHistory[alert.coinId].current else coinPrice;
        priceHistory := priceHistory[alert.coinId := Snapshot(
          coinPrice, previousPrice, coinPrice - previousPrice,
          if previousPrice > 0.0 then (coinPrice - previousPrice) / previousPrice * 100.0 else 0.0)];
        assert priceHistory == step.history;
        if ShouldTrigger(alert, coinPrice, priceHistory) {
          var delivered, marked := TriggerAlert(alert, oracle);
          if delivered {
            notified := notified + [alert.id];
          }
          if marked {
            updated := updated + [alert.id];
          }
        }
        i := i + 1;
      }
      assert alerts[..i] == alerts;
      report := CycleReport(Some(coinIds), notified, updated);
    }
  }

  // ---------------------------------------------------------------------------
  // Properties of a cycle
  // ---------------------------------------------------------------------------

  /** An empty alert list ends the cycle with no quote request and the history unchanged. */
  lemma EmptyCycleIsNoop(history: History, prices: Option<map<string, real>>, oracle: Oracle)
    ensures Cycle(history, Some([]), prices, oracle) == CycleResult(history, CycleReport(None, [], []))
  {
  }

  /** A failed quote fetch leaves the history as it was and fires nothing. */
  lemma FailedFetchChangesNothing(history: History, alerts: seq<AlertCheck>, oracle: Oracle)
    requires alerts != []
    ensures var r := Cycle(history, Some(alerts), None, oracle);
            r.history == history && r.report.notified == [] && r.report.updated == []
            && r.report.requested == Some(CoinIds(alerts))
  {
  }

  /** The quote request names each coin of the loaded alerts exactly once. */
  lemma RequestedCoinsAreDistinct(alerts: seq<AlertCheck>)
    ensures forall c :: c in CoinIds(alerts) <==> exists k :: 0 <= k < |alerts| && alerts[k].coinId == c
    ensures forall i, j :: 0 <= i < j < |CoinIds(alerts)| ==> CoinIds(alerts)[i] != CoinIds(alerts)[j]
  {
    var ids := seq(|alerts|, k requires 0 <= k < |alerts| => alerts[k].coinId);
    assert forall k :: 0 <= k < |alerts| ==> ids[k] == alerts[k].coinId;
  }

  /**
   * An alert without a usable quote, wherever it stands, leaves everything as
   * it was, and the alerts after it are processed as if it were absent.
   */
  lemma {:induction false} UnquotedAlertIsSkipped(history: History, before: seq<AlertCheck>, alert: AlertCheck,
                                                  after: seq<AlertCheck>, prices: map<string, real>, oracle: Oracle)
    requires !HasQuote(prices, alert.coinId)
    ensures ProcessAll(history, before + [alert] + after, prices, oracle) == ProcessAll(history, before + after, prices, oracle)
    decreases |after|
  {
    if after == [] {
      assert before + [alert] + after == before + [alert];
      assert before + after == before;
      ProcessAllAppend(history, before, alert, prices, oracle);
    } else {
      var rest, last := after[..|after| - 1], after[|after| - 1];
      UnquotedAlertIsSkipped(history, before, alert, rest, prices, oracle);
      assert before + [alert] + after == (before + [alert] + rest) + [last];
      assert before + after == (before + rest) + [last];
      ProcessAllAppend(history, before + [alert] + rest, last, prices, oracle);
      ProcessAllAppend(history, before + rest, last, prices, oracle);
    }
  }

  /** The coins that have a usable quote among those of `alerts`. */
  function QuotedCoins(alerts: seq<AlertCheck>, prices: map<string, real>): set<string>
  {
    set k | 0 <= k < |alerts| && HasQuote(prices, alerts[k].coinId) :: alerts[k].coinId
  }

  /**
   * A cycle's loop adds history entries exactly for the quoted coins of its
   * alerts and leaves the entry of every other coin as it was.
   */
  lemma {:induction false} HistoryFrame(history: History, alerts: seq<AlertCheck>,
                                        prices: map<string, real>, oracle: Oracle)
    ensures ProcessAll(history, alerts, prices, oracle).history.Keys == history.Keys + QuotedCoins(alerts, prices)
    ensures forall c :: c !in QuotedCoins(alerts, prices) ==>
              Get(ProcessAll(history, alerts, prices, oracle).history, c) == Get(history, c)
    decreases |alerts|
  {
    if alerts != [] {
      var init := alerts[..|alerts| - 1];
      var last := alerts[|alerts| - 1];
      HistoryFrame(history, init, prices, oracle);
      assert QuotedCoins(alerts, prices)
          == QuotedCoins(init, prices) + (if HasQuote(prices, last.coinId) then {last.coinId} else {}) by {
        assert forall k :: 0 <= k < |init| ==> init[k] == alerts[k];
        forall c | c in QuotedCoins(alerts, prices)
          ensures c in QuotedCoins(init, prices) || (HasQuote(prices, last.coinId) && c == last.coinId)
        {
          var k :| 0 <= k < |alerts| && HasQuote(prices, alerts[k].coinId) && alerts[k].coinId == c;
          if k < |init| {
            assert init[k].coinId == c;
          }
        }
      }
    }
  }

  /**
   * Once any alert on a quoted coin has been processed, the coin's entry holds
   * its quote, whatever alerts on other coins come after it.
   */
  lemma {:induction false} LatestQuoteWritten(history: History, alerts: seq<AlertCheck>,
                                              prices: map<string, real>, oracle: Oracle, c: string)
    requires HasQuote(prices, c)
    requires exists k :: 0 <= k < |alerts| && alerts[k].coinId == c
    ensures c in ProcessAll(history, alerts, prices, oracle).history
    ensures ProcessAll(history, alerts, prices, oracle).history[c].current == prices[c]
    decreases |alerts|
  {
    var init, last := alerts[..|alerts| - 1], alerts[|alerts| - 1];
    if last.coinId != c {
      var k :| 0 <= k < |alerts| && alerts[k].coinId == c;
      assert init[k].coinId == c;
      LatestQuoteWritten(history, init, prices, oracle, c);
    }
  }

  /**
   * History is written per alert, not per coin: any later alert on a quoted
   * coin that an earlier alert of the same cycle already wrote, adjacent or
   * not, sees previous == current and a change of 0.
   */
  lemma SecondAlertOnCoinSeesNoChange(history: History, alerts: seq<AlertCheck>,
                                      prices: map<string, real>, oracle: Oracle, k: int, j: int)
    requires 0 <= k < j < |alerts| && alerts[k].coinId == alerts[j].coinId
    requires HasQuote(prices, alerts[j].coinId)
    ensures var h := ProcessAll(history, alerts[..j + 1], prices, oracle).history;
            var c, p := alerts[j].coinId, prices[alerts[j].coinId];
            c in h && h[c] == Snapshot(p, p, 0.0, 0.0)
  {
    var c := alerts[j].coinId;
    assert alerts[..j + 1][..j] == alerts[..j];
    assert alerts[..j][k].coinId == c;
    LatestQuoteWritten(history, alerts[..j], prices, oracle, c);
  }

  /**
   * Consequently a percentage alert with a positive target never fires when an
   * earlier alert of the same cycle was on its coin.
   */
  lemma SecondPercentageAlertNeverFires(history: History, alerts: seq<AlertCheck>,
                                        prices: map<string, real>, oracle: Oracle, k: int, j: int)
    requires 0 <= k < j < |alerts| && alerts[k].coinId == alerts[j].coinId
    requires HasQuote(prices, alerts[j].coinId)
    requires alerts[j].alertType == "percentage" && NumberOrZero(alerts[j].percentageChange) > 0.0
    ensures !ProcessAlert(ProcessAll(history, alerts[..j], prices, oracle).history, alerts[j], prices, oracle).fired
  {
    SecondAlertOnCoinSeesNoChange(history, alerts, prices, oracle, k, j);
    assert alerts[..j + 1][..j] == alerts[..j];
  }

  /** On a coin's first observation, a percentage alert with a positive target cannot fire. */
  lemma FirstObservationPercentageNeverFires(history: History, alert: AlertCheck,
                                             prices: map<string, real>, oracle: Oracle)
    requires alert.coinId !in history
    requires alert.alertType == "percentage" && NumberOrZero(alert.percentageChange) > 0.0
    ensures !ProcessAlert(history, alert, prices, oracle).fired
  {
  }

  /**
   * Inside a cycle the "no history or previous price 0" guard never applies:
   * the entry is written before the predicate runs, and its previous price is
   * a nonzero quote.
   */
  lemma WrittenEntryHasHistory(history: History, alert: AlertCheck, prices: map<string, real>)
    requires HasQuote(prices, alert.coinId)
    ensures var written := history[alert.coinId := NextSnapshot(Get(history, alert.coinId), prices[alert.coinId])];
            alert.coinId in written && written[alert.coinId].previous != 0.0
  {
  }

  /**
   * A coin last seen at 100 and quoted at 115 has risen 15%: an `increase`
   * alert fires for a target of 10 and not for 20; likewise a fall to 85
   * fires a `decrease` alert for 10 and not for 20.
   */
  lemma PercentageScenario(alert: AlertCheck, prior: Snapshot)
    requires alert.alertType == "percentage" && prior.current == 100.0
    ensures var h := map[alert.coinId := prior];
      && (alert.comparison == "increase" ==>
            && ProcessAlert(h, alert.(percentageChange := Some(10.0)), map[alert.coinId := 115.0], Oracle({}, {})).fired
            && !ProcessAlert(h, alert.(percentageChange := Some(20.0)), map[alert.coinId := 115.0], Oracle({}, {})).fired)
      && (alert.comparison == "decrease" ==>
            && ProcessAlert(h, alert.(percentageChange := Some(10.0)), map[alert.coinId := 85.0], Oracle({}, {})).fired
            && !ProcessAlert(h, alert.(percentageChange := Some(20.0)), map[alert.coinId := 85.0], Oracle({}, {})).fired)
  {
    assert NextSnapshot(Some(prior), 115.0).changePercent == 15.0;
    assert NextSnapshot(Some(prior), 85.0).changePercent == -15.0;
  }

  /** An alert is reported delivered or marked only if it fired, and per the notifier and store outcomes. */
  lemma ProcessAlertOutcome(history: History, alert: AlertCheck, prices: map<string, real>, oracle: Oracle)
    ensures var s := ProcessAlert(history, alert, prices, oracle);
      && (s.delivered <==> s.fired && Delivered(alert, oracle))
      && (s.marked <==> s.fired && MarkedTriggered(alert, oracle))
      && (s.fired ==> HasQuote(prices, alert.coinId))
  {
  }

  /**
   * Every id the loop reports as notified or as marked belongs to a loaded
   * alert whose send succeeded, respectively that was not stopped by a
   * throwing send or a throwing update.
   */
  lemma {:induction false} ReportedIdsAreSound(history: History, alerts: seq<AlertCheck>,
                                               prices: map<string, real>, oracle: Oracle)
    ensures var r := ProcessAll(history, alerts, prices, oracle).report;
      && (forall id :: id in r.notified ==> exists k :: 0 <= k < |alerts| && alerts[k].id == id && Delivered(alerts[k], oracle))
      && (forall id :: id in r.updated ==> exists k :: 0 <= k < |alerts| && alerts[k].id == id && MarkedTriggered(alerts[k], oracle))
      && |r.notified| <= |alerts| && |r.updated| <= |alerts|
    decreases |alerts|
  {
    if alerts != [] {
      var init := alerts[..|alerts| - 1];
      ReportedIdsAreSound(history, init, prices, oracle);
      assert forall k :: 0 <= k < |init| ==> init[k] == alerts[k];
    }
  }

  /** An alert whose send throws is never marked triggered: the update is skipped. */
  lemma ThrowingSendSkipsUpdate(history: History, alerts: seq<AlertCheck>, prices: map<string, real>,
                                oracle: Oracle, id: string)
    requires forall k :: 0 <= k < |alerts| && alerts[k].id == id ==> CanNotify(alerts[k].users)
    requires id in oracle.sendThrows
    ensures id !in ProcessAll(history, alerts, prices, oracle).report.updated
    ensures id !in ProcessAll(history, alerts, prices, oracle).report.notified
  {
    ReportedIdsAreSound(history, alerts, prices, oracle);
  }

  /** A price alert above $50000 quoted at $50500 is delivered once and marked triggered. */
  lemma PriceAlertScenario(history: History, alert: AlertCheck)
    requires alert.alertType == "price" && alert.comparison == "above" && alert.targetPrice == Some(50000.0)
    requires alert.users == AlertUser(Some("42"), true)
    ensures var r := Cycle(history, Some([alert]), Some(map[alert.coinId := 50500.0]), Oracle({}, {}));
            r.report.notified == [alert.id] && r.report.updated == [alert.id]
            && r.report.requested == Some([alert.coinId])
  {
    ProcessAllAppend(history, [], alert, map[alert.coinId := 50500.0], Oracle({}, {}));
    assert [] + [alert] == [alert];
    var ids := seq(1, k requires 0 <= k < 1 => [alert][k].coinId);
    assert ids == [alert.coinId] && ids[..0] == [];
    assert CoinIds([alert]) == Distinct(ids);
    assert Distinct(ids[..0]) == [];
    assert Distinct(ids) == [alert.coinId];
    assert Cycle(history, Some([alert]), Some(map[alert.coinId := 50500.0]), Oracle({}, {})).report.requested
        == Some(CoinIds([alert]));
  }

  /** An alert whose coin gets no quote is neither delivered nor marked. */
  lemma MissingQuoteScenario(history: History, alert: AlertCheck, prices: map<string, real>, oracle: Oracle)
    requires alert.coinId !in prices
    ensures var r := Cycle(history, Some([alert]), Some(prices), oracle);
            r.report.notified == [] && r.report.updated == [] && r.history == history
  {
    ProcessAllAppend(history, [], alert, prices, oracle);
    assert [] + [alert] == [alert];
  }

  // ---------------------------------------------------------------------------
  // Firing once: the store's side of the cycle (lib/supabase.ts)
  // ---------------------------------------------------------------------------

  /** The filter of `getActiveAlerts`: active, untriggered, and owned by a verified user. */
  predicate Loadable(alert: AlertCheck)
  {
    alert.isActive && !alert.triggered && alert.users.telegramVerified
  }

  /** The store after `updateAlert(id, {triggered: true, is_active: false})` for each marked id. */
  function ApplyMarks(store: map<string, AlertCheck>, marked: seq<string>): map<string, AlertCheck>
  {
    map id | id in store :: if id in marked then store[id].(triggered := true, isActive := false) else store[id]
  }

  /**
   * Firing once: after the store applies a cycle's marks, a following cycle
   * whose alerts come from that store (through the `getActiveAlerts` filter)
   * delivers nothing to an alert the first cycle marked.
   */
  lemma MarkedAlertsDoNotFireAgain(store: map<string, AlertCheck>, first: seq<string>,
                                   history: History, reloaded: seq<AlertCheck>,
                                   prices: map<string, real>, oracle: Oracle)
    requires forall k :: 0 <= k < |reloaded| ==>
               reloaded[k].id in ApplyMarks(store, first) && ApplyMarks(store, first)[reloaded[k].id] == reloaded[k]
               && Loadable(reloaded[k])
    ensures var r := ProcessAll(history, reloaded, prices, oracle).report;
            forall id :: id in first ==> id !in r.notified && id !in r.updated
  {
    ReportedIdsAreSound(history, reloaded, prices, oracle);
  }
}
