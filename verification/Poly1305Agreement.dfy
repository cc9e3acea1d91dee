/** The two Poly1305 implementations agree. */
module Poly1305Agreement {
  import opened MachineInts
  import opened Poly1305Spec
  import Poly1305Neon
  import Poly1305Mono

  /** wg_poly1305 and crypto_poly1305 return the same sixteen bytes for every key and message. */
  method BothTags(data: seq<byte>, key: seq<byte>) returns (fast: seq<byte>, reference: seq<byte>)
    requires |key| == 32
    ensures fast == reference && IsTag(key, data, fast)
  {
    fast := Poly1305Neon.Tag(data, key);
    reference := Poly1305Mono.Tag(data, key);
    TagUnique(key, data, fast, reference);
  }
}
