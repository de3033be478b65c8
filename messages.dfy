/** Typed OSC arguments and messages, as they travel between the router's legs. */
module Messages {

  newtype byte = x: int | 0 <= x < 256

  /**
   * One argument of an OSC message. `Blob` is a Node byte buffer; `ArrayBuffer` is the
   * browser's raw binary type, which the web client converts before encoding.
   */
  datatype Arg =
    | Num(n: int)
    | Str(s: string)
    | Bool(b: bool)
    | Blob(bytes: seq<byte>)
    | ArrayBuffer(raw: seq<byte>)

  datatype Message = Message(address: string, args: seq<Arg>)
}
