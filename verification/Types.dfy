/** The value types the payment pipeline passes around, and the arithmetic of the source language. */
module Types {

  datatype Option<+T> = None | Some(value: T)

  /** A returned value, or the exception the source throws instead. */
  datatype Result<+T, +E> = Ok(value: T) | Err(error: E)

  datatype PaymentInstruction = PaymentInstruction(
    senderVpa: string, receiverVpa: string, amount: int, // paise
    pinHash: string, nonce: string, signedAt: int)       // epoch milliseconds

  datatype MeshPacket = MeshPacket(packetId: string, ttl: int, createdAt: int, ciphertext: string)

  datatype Account = Account(vpa: string, holderName: string, balance: int, version: int)

  datatype Status = SETTLED | REJECTED | DUPLICATE_DROPPED | INVALID

  datatype Transaction = Transaction(
    id: int, packetHash: string, senderVpa: string, receiverVpa: string, amount: int,
    signedAt: int, settledAt: int, bridgeNodeId: string, hopCount: int, status: Status)

  /** What a caller hands to `settle`. */
  datatype Request = Request(
    instruction: PaymentInstruction, packetHash: string, bridgeNodeId: string, hopCount: int)

  datatype SettleError = UnknownSender | UnknownReceiver | NonPositiveAmount | DuplicateHash

  /** Integer division as in C++: it truncates toward zero. */
  function TruncDiv(a: int, b: int): int
    requires b > 0
  {
    if a >= 0 then a / b else -(-a / b)
  }

  predicate InInt64(x: int) {
    -0x8000_0000_0000_0000 <= x <= 0x7fff_ffff_ffff_ffff
  }
}
