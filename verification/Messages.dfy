/** The OCPP messages the router and the relay tell apart, without their contents. */
module Messages {
  datatype Message =
    | BootNotification | Authorize | DataTransfer | Heartbeat | StatusNotification | MeterValues
    | StartTransaction | StopTransaction | FirmwareStatusNotification | DiagnosticsStatusNotification
    | SetChargingProfile | ClearChargingProfile | RemoteStartTransaction | RemoteStopTransaction

  function Action(m: Message): string {
    match m
    case BootNotification => "BootNotification"
    case Authorize => "Authorize"
    case DataTransfer => "DataTransfer"
    case Heartbeat => "Heartbeat"
    case StatusNotification => "StatusNotification"
    case MeterValues => "MeterValues"
    case StartTransaction => "StartTransaction"
    case StopTransaction => "StopTransaction"
    case FirmwareStatusNotification => "FirmwareStatusNotification"
    case DiagnosticsStatusNotification => "DiagnosticsStatusNotification"
    case SetChargingProfile => "SetChargingProfile"
    case ClearChargingProfile => "ClearChargingProfile"
    case RemoteStartTransaction => "RemoteStartTransaction"
    case RemoteStopTransaction => "RemoteStopTransaction"
  }

  /** Messages from a charger to the central system; the others go to the charger. */
  predicate FromCharger(m: Message) {
    !m.SetChargingProfile? && !m.ClearChargingProfile? && !m.RemoteStartTransaction? && !m.RemoteStopTransaction?
  }
}
