/**
  The channel-independent types every notification channel and both schedulers share:
  the message a channel sends, the delivery status codes a channel reports, and the
  registry row of a provider.
 */
module Notifications {

  /** What a channel is asked to send. */
  datatype Notification = Notification(
    subject: string,
    message: string,
    state: string,
    time: string,
    receptors: seq<string>)

  /** Delivery status codes reported by a channel's `Status`. */
  const StatusSent: int := 1
  const StatusFailed: int := 6
  const StatusDelivered: int := 10
  const StatusUndelivered: int := 11

  /**
    The bound channel implementation, through its three getters
    `GetName`, `GetFlag` and `GetPriority`.
   */
  datatype Channel = Channel(name: string, flag: string, priority: int)

  /**
    A provider registry row: the stored name, flag and priority, the enabled status,
    and the channel implementation matched to it.
   */
  datatype Provider = Provider(
    name: string,
    flag: string,
    priority: int,
    status: bool,
    channel: Channel)
}
