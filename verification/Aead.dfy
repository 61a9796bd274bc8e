/** Authenticated encryption, known only by what the streams rely on. */
module Aead {
  import opened Wire

  const TAG := 16

  datatype Cipher = Cipher(seal: (bytes, bytes) -> bytes, open: (bytes, bytes) -> Option<bytes>) {
    /** Opening undoes sealing under the same nonce; a sealed text is sixteen bytes longer. */
    ghost predicate Good() {
      && (forall nonce, plain :: |seal(nonce, plain)| == |plain| + TAG && open(nonce, seal(nonce, plain)) == Some(plain))
      && (forall nonce, text :: open(nonce, text).Some? ==> |text| == |open(nonce, text).value| + TAG)
    }
  }
}
