/** The phase a client connection is in, shared by every protocol. */
module ConnectionPhases {
  datatype Phase = Disconnected | Connecting | Connected | Reconnecting | Cooldown | Error
}
