/**
 * CBOR data items (RFC 8949 section 3), as the CBOR library's `Value` holds
 * them. The beacon codec is modelled at this level: turning data items into
 * bytes and back is left to the library.
 */
module Cbor {
  import opened Types

  /** A floating-point value, kept as an opaque token: nothing in the model computes with it. */
  datatype FloatToken = FloatToken(id: nat)

  datatype DataItem =
    | UInt(n: uint64)                        // major type 0
    | NegInt(n: uint64)                      // major type 1, the integer -1 - n
    | Bytes(bytes: seq<uint8>)               // major type 2
    | Text(text: string)                     // major type 3
    | Array(items: seq<DataItem>)            // major type 4
    | Map(entries: map<DataItem, DataItem>)  // major type 5, keyed like `Value::Map`, a `BTreeMap`
    | Float(value: FloatToken)               // major type 7, half, single or double precision
    | Bool(b: bool)                          // major type 7, simple values 20 and 21
    | Null                                   // major type 7, simple value 22
}
