/** Rows of the database tables (backend/models.py). Instants are integers
    (microseconds on one clock); speeds, thresholds and coordinates are reals. */
module Records {
  import opened Common

  datatype Bus = Bus(id: int, busId: string, name: Option<string>, capacity: Option<int>)

  datatype Telemetry = Telemetry(
    id: int,
    busId: string,
    timestamp: int,
    lat: real,
    lon: real,
    speedKmh: real,
    occupancy: int,
    doorOpen: bool,
    engineOn: bool)

  /** `kind` is the column `type`. */
  datatype Alert = Alert(
    id: int,
    busId: string,
    timestamp: int,
    kind: string,
    value: real,
    threshold: real,
    message: string)

  datatype User = User(id: int, username: string, passwordHash: string, role: string)

  datatype DriverMessage = DriverMessage(
    id: int,
    busId: string,
    alertId: Option<int>,
    messageText: string,
    templateType: string,
    customNote: Option<string>,
    sentByUserId: int,
    sentAt: int,
    status: string,
    deliveredAt: Option<int>,
    readAt: Option<int>,
    errorMessage: Option<string>)

  const StatusPending := "pending"
  const StatusSent := "sent"
  const StatusDelivered := "delivered"
  const StatusRead := "read"
  const StatusFailed := "failed"
}
