/**
  The app-time accounting state of the sampler: a map from application key to
  its limit in minutes and a map from application key to the seconds it has
  been sampled as foreground since its last reset. Every operation runs under
  one lock in the daemon, so here each one is a single atomic step.
 */
module Monitor {
  import opened Config

  /** The number of one-second ticks that make up a limit of `minutes`. */
  function Threshold(minutes: int): int
  {
    minutes * 60
  }

  /** An application is monitored when it has a limit entry and that limit is positive. */
  predicate Monitored(limits: map<string, int>, app: string)
  {
    app in limits && limits[app] > 0
  }

  /** The counter of `app`, where a missing entry reads as zero (as a map read does in the daemon). */
  function Count(timers: map<string, int>, app: string): int
  {
    if app in timers then timers[app] else 0
  }

  /** The state invariant: only applications with a limit entry have a counter,
      counters are never negative, and a monitored application's counter is
      always strictly below its threshold (reaching it resets the counter). */
  predicate Consistent(timers: map<string, int>, limits: map<string, int>)
  {
    && timers.Keys <= limits.Keys
    && forall k :: k in timers ==> 0 <= timers[k] && (limits[k] > 0 ==> timers[k] < Threshold(limits[k]))
  }

  /** The limits map built from a configuration list, entry by entry from the
      first to the last, so that a later entry for the same key overwrites an
      earlier one. */
  function LimitsOf(apps: seq<App>): (lm: map<string, int>)
    ensures lm.Keys == set i | 0 <= i < |apps| :: apps[i].systemName
  {
    if apps == [] then map[]
    else
      var last := apps[|apps| - 1];
      var before := LimitsOf(apps[..|apps| - 1]);
      assert forall i :: 0 <= i < |apps| - 1 ==> apps[..|apps| - 1][i] == apps[i];
      before[last.systemName := last.limit]
  }

  /** The limit of a configured key is the limit of the LAST entry that names it. */
  lemma {:induction false} LastEntryWins(apps: seq<App>, i: nat)
    requires i < |apps|
    requires forall j :: i < j < |apps| ==> apps[j].systemName != apps[i].systemName
    ensures apps[i].systemName in LimitsOf(apps)
    ensures LimitsOf(apps)[apps[i].systemName] == apps[i].limit
  {
    if i < |apps| - 1 {
      var prefix := apps[..|apps| - 1];
      assert prefix[i] == apps[i];
      forall j | i < j < |prefix| ensures prefix[j].systemName != prefix[i].systemName {
        assert prefix[j] == apps[j];
      }
      LastEntryWins(prefix, i);
    }
  }

  /** What one sampling tick produces: the new counters, and whether the alert was sent. */
  datatype TickOutcome = TickOutcome(timers: map<string, int>, alert: bool)

  /** One sampling tick with `app` in the foreground. */
  function Step(timers: map<string, int>, limits: map<string, int>, app: string): (r: TickOutcome)
    // an unmonitored application changes nothing and raises no alert
    ensures !Monitored(limits, app) ==> r.timers == timers && !r.alert
    // the alert fires exactly when the incremented counter reaches the threshold
    ensures r.alert <==> Monitored(limits, app) && Count(timers, app) + 1 >= Threshold(limits[app])
    // below the threshold the counter goes up by one; at the threshold it is left at zero
    ensures Monitored(limits, app) && !r.alert ==> app in r.timers && r.timers[app] == Count(timers, app) + 1
    ensures r.alert ==> app in r.timers && r.timers[app] == 0
    // no other application's counter is touched
    ensures r.timers - {app} == timers - {app}
    // the state invariant is kept, and under it the alert comes exactly at the threshold
    ensures Consistent(timers, limits) ==> Consistent(r.timers, limits)
    ensures Consistent(timers, limits) && r.alert ==> Count(timers, app) + 1 == Threshold(limits[app])
  {
    if !Monitored(limits, app) then TickOutcome(timers, false)
    else
      var c := Count(timers, app) + 1;
      if c >= Threshold(limits[app]) then TickOutcome(timers[app := 0], true)
      else TickOutcome(timers[app := c], false)
  }

  /** The counters after a run of ticks, and the applications alerted, in order. */
  datatype Trace = Trace(timers: map<string, int>, alerts: seq<string>)

  /** The effect of ticking once for each sampled foreground application, in order. */
  function Replay(timers: map<string, int>, limits: map<string, int>, samples: seq<string>): (t: Trace)
    // at most one alert per tick, and only for a sampled, monitored application
    ensures |t.alerts| <= |samples|
    ensures forall i :: 0 <= i < |t.alerts| ==> t.alerts[i] in samples && Monitored(limits, t.alerts[i])
    decreases |samples|
  {
    if samples == [] then Trace(timers, [])
    else
      var before := Replay(timers, limits, samples[..|samples| - 1]);
      var app := samples[|samples| - 1];
      var r := Step(before.timers, limits, app);
      Trace(r.timers, before.alerts + if r.alert then [app] else [])
  }

  /** `n` consecutive samples of the same application. */
  function Repeat(app: string, n: nat): (s: seq<string>)
    ensures |s| == n && forall i :: 0 <= i < n ==> s[i] == app
  {
    seq(n, _ => app)
  }

  /** Dropping the last of `n` repeated samples leaves `n - 1` of them. */
  lemma RepeatPrefix(app: string, n: nat)
    requires n > 0
    ensures Repeat(app, n)[..n - 1] == Repeat(app, n - 1)
    ensures Repeat(app, n)[n - 1] == app
  {
  }

  /** A run of ticks keeps the state invariant. */
  lemma {:induction false} ReplayKeepsConsistent(timers: map<string, int>, limits: map<string, int>, samples: seq<string>)
    requires Consistent(timers, limits)
    ensures Consistent(Replay(timers, limits, samples).timers, limits)
  {
    if samples != [] {
      ReplayKeepsConsistent(timers, limits, samples[..|samples| - 1]);
    }
  }

  /** Running the samples `s` and then `t` is running `s + t`. */
  lemma {:induction false} ReplayAppend(timers: map<string, int>, limits: map<string, int>, s: seq<string>, t: seq<string>)
    ensures var first := Replay(timers, limits, s);
            var second := Replay(first.timers, limits, t);
            Replay(timers, limits, s + t) == Trace(second.timers, first.alerts + second.alerts)
    decreases |t|
  {
    if t == [] {
      assert s + t == s;
    } else {
      assert (s + t)[..|s + t| - 1] == s + t[..|t| - 1];
      ReplayAppend(timers, limits, s, t[..|t| - 1]);
    }
  }

  /** While the counter stays below the threshold, each consecutive sample adds
      one second and no alert fires. */
  lemma {:induction false} Accumulate(timers: map<string, int>, limits: map<string, int>, app: string, n: nat)
    requires Monitored(limits, app)
    requires Count(timers, app) + n < Threshold(limits[app])
    ensures Replay(timers, limits, Repeat(app, n)).alerts == []
    ensures Replay(timers, limits, Repeat(app, n)).timers
            == if n == 0 then timers else timers[app := Count(timers, app) + n]
  {
    if n > 0 {
      RepeatPrefix(app, n);
      Accumulate(timers, limits, app, n - 1);
    }
  }

  /** From a counter `c` below the threshold `T`, the first `T - c - 1` consecutive
      samples raise no alert and the `T - c`-th raises exactly one and resets the counter. */
  lemma {:induction false} AlertAfterRemaining(timers: map<string, int>, limits: map<string, int>, app: string)
    requires Monitored(limits, app)
    requires 0 <= Count(timers, app) < Threshold(limits[app])
    ensures var n := Threshold(limits[app]) - Count(timers, app);
            && (forall k :: 0 <= k < n ==> Replay(timers, limits, Repeat(app, k)).alerts == [])
            && Replay(timers, limits, Repeat(app, n)) == Trace(timers[app := 0], [app])
  {
    var n := Threshold(limits[app]) - Count(timers, app);
    forall k | 0 <= k < n ensures Replay(timers, limits, Repeat(app, k)).alerts == [] {
      Accumulate(timers, limits, app, k);
    }
    RepeatPrefix(app, n);
    Accumulate(timers, limits, app, n - 1);
  }

  /** Starting from a zero (or missing) counter and a positive limit of L minutes,
      exactly L*60 consecutive samples give exactly one alert, on the last sample,
      and leave the counter at zero. */
  lemma OneAlertPerWindow(timers: map<string, int>, limits: map<string, int>, app: string)
    requires Monitored(limits, app)
    requires Count(timers, app) == 0
    ensures forall k :: 0 <= k < limits[app] * 60 ==> Replay(timers, limits, Repeat(app, k)).alerts == []
    ensures Replay(timers, limits, Repeat(app, limits[app] * 60)) == Trace(timers[app := 0], [app])
  {
    AlertAfterRemaining(timers, limits, app);
  }

  /** After a reset, every further alert needs another full window: k*L*60
      consecutive samples from a zero counter give exactly k alerts. */
  lemma {:induction false} PeriodicAlerts(timers: map<string, int>, limits: map<string, int>, app: string, k: nat)
    requires Monitored(limits, app)
    requires Count(timers, app) == 0
    ensures Replay(timers, limits, Repeat(app, k * Threshold(limits[app]))).alerts == Repeat(app, k)
    ensures Count(Replay(timers, limits, Repeat(app, k * Threshold(limits[app]))).timers, app) == 0
  {
    var w := Threshold(limits[app]);
    if k > 0 {
      PeriodicAlerts(timers, limits, app, k - 1);
      var first := Replay(timers, limits, Repeat(app, (k - 1) * w));
      assert k * w == (k - 1) * w + w;
      assert Repeat(app, k * w) == Repeat(app, (k - 1) * w) + Repeat(app, w);
      ReplayAppend(timers, limits, Repeat(app, (k - 1) * w), Repeat(app, w));
      OneAlertPerWindow(first.timers, limits, app);
      assert Repeat(app, k) == Repeat(app, k - 1) + [app];
    }
  }

  /** Samples of other applications never touch `app`: its counter is frozen, not decayed,
      and it is never alerted. */
  lemma {:induction false} OthersFreeze(timers: map<string, int>, limits: map<string, int>, app: string, samples: seq<string>)
    requires forall i :: 0 <= i < |samples| ==> samples[i] != app
    ensures (app in Replay(timers, limits, samples).timers) == (app in timers)
    ensures Count(Replay(timers, limits, samples).timers, app) == Count(timers, app)
    ensures app !in Replay(timers, limits, samples).alerts
  {
    if samples != [] {
      var prefix := samples[..|samples| - 1];
      forall i | 0 <= i < |prefix| ensures prefix[i] != app {
        assert prefix[i] == samples[i];
      }
      OthersFreeze(timers, limits, app, prefix);
      var before := Replay(timers, limits, prefix);
      var r := Step(before.timers, limits, samples[|samples| - 1]);
      assert app in (r.timers - {samples[|samples| - 1]}) <==> app in (before.timers - {samples[|samples| - 1]});
    }
  }

  /** A one-minute limit on "firefox" and 60 foreground ticks give one alert
      and leave its counter at zero. */
  lemma FirefoxMinute()
    ensures Replay(map[], map["firefox" := 1], Repeat("firefox", 60)) == Trace(map["firefox" := 0], ["firefox"])
  {
    OneAlertPerWindow(map[], map["firefox" := 1], "firefox");
  }

  /** The sampler's shared state. */
  class Monitor {
    var timers: map<string, int>
    var limits: map<string, int>

    ghost predicate Valid()
      reads this
    {
      Consistent(timers, limits)
    }

    /** Builds the limits map from the configuration list, starting with no counters. */
    constructor (apps: seq<App>)
      ensures limits == LimitsOf(apps)
      ensures timers == map[]
      ensures Valid()
    {
      var lm := map[];
      var i := 0;
      while i < |apps|
        invariant 0 <= i <= |apps|
        invariant lm == LimitsOf(apps[..i])
      {
        assert apps[..i + 1][..i] == apps[..i];
        lm := lm[apps[i].systemName := apps[i].limit];
        i := i + 1;
      }
      assert apps[..|apps|] == apps;
      timers := map[];
      limits := lm;
    }

    /** One sampling tick with `app` in the foreground; `alert` says whether the
        alert sink was invoked for `app`. */
    method Tick(app: string) returns (alert: bool)
      modifies this
      ensures limits == old(limits)
      ensures TickOutcome(timers, alert) == Step(old(timers), limits, app)
      ensures old(Valid()) ==> Valid()
    {
      alert := false;
      if !(app in limits) || limits[app] <= 0 {
        return;
      }
      timers := timers[app := Count(timers, app) + 1];
      if timers[app] >= Threshold(limits[app]) {
        alert := true;
        timers := timers[app := 0];
      }
    }

    /** The sampling loop, given the finite sequence of foreground applications
        that its ticks observe; returns the applications alerted, in order. */
    method Run(samples: seq<string>) returns (alerts: seq<string>)
      modifies this
      ensures limits == old(limits)
      ensures Trace(timers, alerts) == Replay(old(timers), limits, samples)
      ensures old(Valid()) ==> Valid()
    {
      alerts := [];
      var i := 0;
      while i < |samples|
        invariant 0 <= i <= |samples|
        invariant limits == old(limits)
        invariant Trace(timers, alerts) == Replay(old(timers), limits, samples[..i])
      {
        assert samples[..i + 1][..i] == samples[..i];
        var alert := Tick(samples[i]);
        if alert {
          alerts := alerts + [samples[i]];
        }
        i := i + 1;
      }
      assert samples[..|samples|] == samples;
      if old(Valid()) {
        ReplayKeepsConsistent(old(timers), limits, samples);
      }
    }

    /** A snapshot copy of the counters. */
    method GetTimers() returns (out: map<string, int>)
      ensures out == timers
    {
      out := map[];
      var rest := timers.Keys;
      while rest != {}
        invariant rest <= timers.Keys
        invariant out.Keys == timers.Keys - rest
        invariant forall k :: k in out ==> out[k] == timers[k]
        decreases rest
      {
        var k :| k in rest;
        out := out[k := timers[k]];
        rest := rest - {k};
      }
    }

    /** Installs a new limit for `app` and starts a fresh accounting window for it. */
    method SetLimit(app: string, minutes: int)
      modifies this
      ensures limits == old(limits)[app := minutes]
      ensures timers == old(timers)[app := 0]
      ensures old(Valid()) ==> Valid()
    {
      limits := limits[app := minutes];
      timers := timers[app := 0];
    }
  }
}
