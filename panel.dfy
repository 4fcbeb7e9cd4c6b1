/**
 * Values exchanged with the V2board control panel (v2board/api.go) and the
 * small wrappers the rest of the model shares. The HTTP/JSON client itself
 * is not modelled: its answers reach the model as `Result` values.
 */
module Panel {

  /** An octet. */
  newtype byte = x: int | 0 <= x < 0x100

  /** Size in bytes of a SHA-256 digest (sha256.Size). */
  const DigestSize: nat := 32

  /** A SHA-256 digest: exactly 32 bytes. */
  type Digest = s: seq<byte> | |s| == DigestSize witness seq(32, _ => 0 as byte)

  /**
   * SHA-256 over the bytes of a string. Its internals are not modelled; the
   * model only relies on every result being 32 bytes long.
   */
  type Hasher = string -> Digest

  datatype Option<+T> = None | Some(value: T)

  /** The outcome of a call into the panel: a value or an error message. */
  datatype Result<+T> = Ok(value: T) | Err(error: string)

  /** A proxy user as the panel lists it (User). */
  datatype User = User(id: int, uuid: string, speedLimit: Option<nat>)

  /** One line of a traffic report (TrafficRecord). */
  datatype TrafficRecord = TrafficRecord(userId: int, upload: int, download: int)

  /** Interval settings suggested by the panel, in seconds (BaseConfig). */
  datatype BaseConfig = BaseConfig(pushInterval: int, pullInterval: int)

  /** Node configuration fetched once at startup (NodeInfo). */
  datatype NodeInfo = NodeInfo(serverPort: nat, baseConfig: BaseConfig)
}
