/** The wire records the relay stores and forwards. */
module Envelopes {
  datatype Option<+T> = None | Some(value: T)

  type User = string
  type Conn = nat

  datatype Envelope =
    | Sealed(recipientId: string, ciphertext: string, timestampMs: int, id: string, senderRelay: string)
    | Open(senderId: string, recipientId: string, ciphertext: string, timestampMs: int, id: string)

  /** An envelope the relay has accepted for local delivery. `serial` tells apart equal
      envelopes accepted at different times. */
  datatype Message = Message(serial: nat, envelope: Envelope)
}
