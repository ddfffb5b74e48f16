/** The states of a proxied connection, the interests its handlers ask for, and protocol constants. */
module Protocol {
  import opened Bytes
  import opened Buffers

  /** `enum socks_v5state`. */
  datatype State = GREETING | AUTH | REQUEST | CONNECT | REPLY | COPY | DONE | ERROR

  /** A set of selector operations: bit `OP_READ` and bit `OP_WRITE`. */
  datatype Interest = Interest(r: bool, w: bool)

  const OP_NOOP := Interest(false, false)
  const OP_READ := Interest(true, false)
  const OP_WRITE := Interest(false, true)

  const SOCKS5_VERSION: byte := 0x05
  const RSV: byte := 0x00

  /**
   * What a handshake handler did: its own state, both buffers, the state it returned, and the
   * interest it set for the client, if it set one.
   */
  datatype Handled<S> = Handled(st: S, client: Buf, origin: Buf, next: State, arm: Option<Interest>)

  /** What writing an answer did: the buffer it is sent from, the state returned, the interest set. */
  datatype Written = Written(origin: Buf, next: State, arm: Option<Interest>)

  /**
   * Bytes were only consumed, never moved: what is left ends where the input ended, unless it was
   * all consumed and the buffer rewound.
   */
  ghost predicate EndsWith(b: Buf, input: Buf) {
    && b.cap == input.cap && b.Ok()
    && (b.bytes != [] ==> b.off + |b.bytes| == input.off + |input.bytes|)
  }
}
