/**
  The limit configuration: one entry per configured application. Loading and
  saving it to durable storage is not part of this model; only the in-memory
  list that the daemon holds is.
 */
module Config {
  /** One configured application: a display label, the system-level key the
      sampler looks up, and a limit in minutes (zero or less means "not monitored"). */
  datatype App = App(username: string, systemName: string, limit: int)

  /** The loaded configuration. The daemon keeps it behind a pointer and appends
      to its list in place, so it is an object here. */
  class AppConfig {
    var apps: seq<App>

    constructor (apps: seq<App>)
      ensures this.apps == apps
    {
      this.apps := apps;
    }
  }
}
