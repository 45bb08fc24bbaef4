/** Bytes, messages and the two byte orders used by the message swap and by the wire protocol. */
module Bytes {

  type Byte = x: int | 0 <= x < 256

  /** What a `zmq_msg_t` carries as far as storage and transport are concerned: flag byte and body. */
  datatype Message = Message(flags: Byte, body: seq<Byte>)

  /** `ZMQ_MSG_MORE` is bit 0 and `ZMQ_MSG_SHARED` is bit 7 of the flag byte. */
  predicate HasMore(flags: Byte) { flags % 2 == 1 }

  /** The last of these parts, if any, ends a message. */
  predicate Finished(parts: seq<Message>) { parts == [] || !HasMore(parts[|parts| - 1].flags) }

  function DropShared(flags: Byte): Byte { flags % 128 }

  /** 256 to the power `k`. */
  function Pow256(k: nat): nat {
    if k == 0 then 1 else 256 * Pow256(k - 1)
  }

  /** The `k` low bytes of `n`, least significant first. */
  function ToLE(n: nat, k: nat): (s: seq<Byte>)
    ensures |s| == k
  {
    if k == 0 then [] else [n % 256] + ToLE(n / 256, k - 1)
  }

  function FromLE(s: seq<Byte>): nat {
    if s == [] then 0 else s[0] + 256 * FromLE(s[1..])
  }

  lemma {:induction false} LERoundTrip(n: nat, k: nat)
    requires n < Pow256(k)
    ensures FromLE(ToLE(n, k)) == n
  {
    if k == 0 {
    } else {
      LERoundTrip(n / 256, k - 1);
      assert ToLE(n, k)[1..] == ToLE(n / 256, k - 1);
    }
  }
}
