/** Bytes, failure datatypes and small sequence facts shared by the other modules. */
module Common {

  type Byte = b: int | 0 <= b < 256

  type Bytes = seq<Byte>

  datatype Option<+T> = None | Some(value: T)

  datatype Result<+T, +E> = Ok(value: T) | Err(error: E)

  /** The errors the codecs and the poll loops return; foreign errors keep only their kind. */
  datatype Error =
    | InvalidPacketId
    | IncompletePacket
    | InvalidPacket
    | InvalidUtf8
    | InvalidBase64
    | InvalidJson
    | InvalidAttachmentPacketType
    | TransportFailure
    | IllegalActionBeforeOpen

  /** The bytes of an ASCII literal. */
  function Ascii(s: string): (b: Bytes)
    requires forall i :: 0 <= i < |s| ==> s[i] as int < 128
    ensures |b| == |s|
    ensures forall i :: 0 <= i < |s| ==> b[i] == s[i] as int
  {
    seq(|s|, i requires 0 <= i < |s| => s[i] as int)
  }
}
