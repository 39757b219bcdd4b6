/** Numbers as single bytes. */
module Octets {
  lemma ByteDenotes(n: nat)
    requires n < 0x100
    ensures (n as bv8) as nat == n
  {
  }
}

/** Byte strings, and their textual forms as the library's callers are given them. */
module Encoding {
  import opened Wrappers
  import opened Text

  type Bytes = seq<bv8>

  /** base64 and the view of text as bytes, which the library supplies. */
  datatype Codec = Codec(
    encode: Bytes -> string, decode: string -> Option<Bytes>, bytes: string -> Bytes, text: Bytes -> string)

  /** Decoding undoes encoding, encoded text is plain and free of white space, and text is its bytes. */
  ghost predicate Faithful(c: Codec) {
    && (forall b: Bytes :: c.decode(c.encode(b)) == Some(b))
    && (forall b: Bytes :: (c.encode(b) == "" <==> b == []) && ',' !in c.encode(b) && Trimmed(c.encode(b)))
    && (forall s: string :: c.text(c.bytes(s)) == s && (c.bytes(s) == [] <==> s == ""))
  }
}
