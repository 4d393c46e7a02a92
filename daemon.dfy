/**
  The daemon's command handler: the function it gives the control server,
  which answers one decoded request by reading or changing the configuration
  list and the sampler's state.
 */
module Daemon {
  import opened Wrappers
  import opened Config
  import M = Monitor

  /** A decoded request. A field missing from the wire message holds the
      zero value ("" or 0), so every field is always present here. */
  datatype Request = Request(cmd: string, app: string, name: string, limit: int)

  /** The keyed payload of a response: under "limits" the configuration list,
      under "timers" a snapshot of the counters. */
  datatype Payload = Limits(limits: seq<App>) | Timers(timers: map<string, int>)

  datatype Response = Response(success: bool, data: Option<Payload>)

  /** The commands the handler understands. */
  predicate Known(cmd: string)
  {
    cmd == "getLimits" || cmd == "setLimit" || cmd == "getTimers"
  }

  /** Answers one request. Saving the configuration after `setLimit` is a
      best-effort side effect whose outcome never reaches the response, so it
      is a no-op here. */
  method Handle(cfg: AppConfig, m: M.Monitor, req: Request) returns (resp: Response)
    modifies cfg, m
    ensures req.cmd == "getLimits" ==>
              && resp == Response(true, Some(Limits(cfg.apps)))
              && unchanged(cfg) && unchanged(m)
    ensures req.cmd == "setLimit" ==>
              && cfg.apps == old(cfg.apps) + [App(req.name, req.app, req.limit)]
              && m.limits == old(m.limits)[req.app := req.limit]
              && m.timers == old(m.timers)[req.app := 0]
              && resp == Response(true, None)
    ensures req.cmd == "getTimers" ==>
              && resp == Response(true, Some(Timers(m.timers)))
              && unchanged(cfg) && unchanged(m)
    ensures !Known(req.cmd) ==>
              && resp == Response(false, None)
              && unchanged(cfg) && unchanged(m)
    ensures old(m.Valid()) ==> m.Valid()
  {
    match req.cmd
    case "getLimits" =>
      resp := Response(true, Some(Limits(cfg.apps)));
    case "setLimit" =>
      cfg.apps := cfg.apps + [App(req.name, req.app, req.limit)];
      m.SetLimit(req.app, req.limit);
      resp := Response(true, None);
    case "getTimers" =>
      var snapshot := m.GetTimers();
      resp := Response(true, Some(Timers(snapshot)));
    case _ =>
      resp := Response(false, None);
  }

  /** A `setLimit` is visible to the next `getLimits` and `getTimers`: the
      configuration list gains the new entry at its end, and the new key's
      counter reads zero. */
  method SetLimitThenQuery(apps: seq<App>, req: Request) returns (limits: Response, timers: Response)
    requires req.cmd == "setLimit"
    ensures limits == Response(true, Some(Limits(apps + [App(req.name, req.app, req.limit)])))
    ensures timers.success && timers.data.Some? && timers.data.value.Timers?
    ensures req.app in timers.data.value.timers && timers.data.value.timers[req.app] == 0
  {
    var cfg := new AppConfig(apps);
    var m := new M.Monitor(apps);
    var _ := Handle(cfg, m, req);
    limits := Handle(cfg, m, Request("getLimits", "", "", 0));
    timers := Handle(cfg, m, Request("getTimers", "", "", 0));
  }

  /** Right after start-up, before any tick, `getTimers` reports no counters. */
  method TimersAtStartup(apps: seq<App>) returns (resp: Response)
    ensures resp == Response(true, Some(Timers(map[])))
  {
    var cfg := new AppConfig(apps);
    var m := new M.Monitor(apps);
    resp := Handle(cfg, m, Request("getTimers", "", "", 0));
  }
}
