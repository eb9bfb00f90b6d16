/** What stimuli and observations are matched by. */
module Telemetry {
  import opened Common

  datatype FiveTuple = FiveTuple(
    srcIp: Option<string>, dstIp: Option<string>, protocol: Option<string>, srcPort: Option<int>, dstPort: Option<int>)

  datatype TelemetryEvent = TelemetryEvent(
    eventType: string, fiveTuple: FiveTuple, timestamp: real, fields: map<string, string>, raw: string)
}
