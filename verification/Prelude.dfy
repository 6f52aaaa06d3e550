/** Shared vocabulary: options, instants, and the identities the protocols pass around. */
module Prelude {

  datatype Option<+T> = None | Some(value: T)

  // An instant, in nanoseconds on one monotonic clock.
  type Time = nat

  const SECOND: nat := 1_000_000_000

  // Elapsed time between two instants; zero when the readings are out of order.
  function Since(now: Time, earlier: Time): nat {
    if now < earlier then 0 else now - earlier
  }

  // Identities: only equality of these values matters to the protocols.
  type Handle = nat
  type DeviceId = nat
  type HostId = nat

  lemma Regroup<T>(a: seq<T>, b: seq<T>, c: seq<T>)
    ensures (a + b) + c == a + (b + c)
  {
  }

  // The phones a device can be.
  datatype Platform = Ios | Android
}
