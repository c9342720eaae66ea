/** The records the service hands to its two fire-and-forget sinks: the time-series
    log (`log_event`) and the alert-report writer (`generate_alert`). Sending them is
    I/O; the model collects them in the order they are emitted. */
module Sinks {

  /** The arguments of one `log_event` call; the time stamp the sink adds is not modelled. */
  datatype LogEvent = LogEvent(city: string, source: string, status: string, level: string, description: string)

  /** The arguments of one `generate_alert` call. */
  datatype Alert = Alert(alertType: string, description: string)

  /** `log_event`'s default level and description. */
  const DefaultLevel := "INFO"
  const NoDescription := ""
}
