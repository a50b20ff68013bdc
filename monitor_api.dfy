/**
 * The monitor control endpoint of pages/api/monitor/alerts.ts: GET reports the
 * shared monitor's status; POST starts it, stops it, or runs one check, as the
 * body's `action` says. The collaborators of a cycle are the same parameters
 * the monitor's own methods take.
 */
module MonitorApi {
  import opened Js
  import opened AlertMonitor

  /** The status written, the message or error, and the status object of a GET. */
  datatype ControlResponse = ControlResponse(status: int, message: string, monitorStatus: Option<Status>)

  const InvalidActionError: string := "Invalid action"

  /** `handler(req, res)` over the module-level `alertMonitor`. */
  method Handle(monitor: Monitor, verb: string, body: map<string, JsValue>,
                loaded: Option<seq<AlertCheck>>, prices: Option<map<string, real>>, oracle: Oracle)
    returns (response: ControlResponse)
    modifies monitor
    ensures verb == "GET" ==>
              && unchanged(monitor)
              && response == ControlResponse(200, "Alert monitor status",
                                             Some(Status(monitor.isRunning, |monitor.priceHistory.Keys|, monitor.priceHistory)))
    ensures verb == "POST" && Field(body, "action") == Str("start") ==>
              && response == ControlResponse(200, "Alert monitor started", None)
              && monitor.isRunning
              && (old(monitor.isRunning) ==> monitor.priceHistory == old(monitor.priceHistory))
              && (!old(monitor.isRunning) ==>
                    monitor.priceHistory == Cycle(old(monitor.priceHistory), loaded, prices, oracle).history)
    ensures verb == "POST" && Field(body, "action") == Str("stop") ==>
              && response == ControlResponse(200, "Alert monitor stopped", None)
              && !monitor.isRunning && monitor.priceHistory == old(monitor.priceHistory)
    ensures verb == "POST" && Field(body, "action") == Str("check") ==>
              && response == ControlResponse(200, "Manual check completed", None)
              && monitor.isRunning == old(monitor.isRunning)
              && monitor.priceHistory == Cycle(old(monitor.priceHistory), loaded, prices, oracle).history
    ensures verb == "POST" && Field(body, "action") !in {Str("start"), Str("stop"), Str("check")} ==>
              && unchanged(monitor)
              && response == ControlResponse(400, InvalidActionError, None)
    ensures verb != "GET" && verb != "POST" ==>
              && unchanged(monitor)
              && response == ControlResponse(405, "Method not allowed", None)
  {
    if verb == "GET" {
      var status := monitor.GetStatus();
      return ControlResponse(200, "Alert monitor status", Some(status));
    } else if verb == "POST" {
      var action := Field(body, "action");
      if action == Str("start") {
        var _ := monitor.Start(loaded, prices, oracle);
        return ControlResponse(200, "Alert monitor started", None);
      } else if action == Str("stop") {
        monitor.Stop();
        return ControlResponse(200, "Alert monitor stopped", None);
      } else if action == Str("check") {
        var _ := monitor.ManualCheck(loaded, prices, oracle);
        return ControlResponse(200, "Manual check completed", None);
      }
      return ControlResponse(400, InvalidActionError, None);
    }
    return ControlResponse(405, "Method not allowed", None);
  }
}
