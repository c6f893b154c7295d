/**
 * The javax.tools and java.net vocabulary the in-memory file manager works with:
 * locations, file kinds, URIs, timestamps and the platform's default charset.
 */
module JavaTools {

  /** A Java `long`: the type of `getLastModified` and of `System.currentTimeMillis`. */
  newtype Long = x: int | -0x8000_0000_0000_0000 <= x < 0x8000_0000_0000_0000

  /** `JavaFileObject.Kind`. */
  datatype Kind = Source | Class | Html | Other

  /** `JavaFileManager.Location`: a name and whether the compiler writes to it. */
  datatype Location = Location(name: string, isOutputLocation: bool)

  /** The `StandardLocation` constants the manager and its clients use. */
  const ClassOutput := Location("CLASS_OUTPUT", true)
  const SourceOutput := Location("SOURCE_OUTPUT", true)
  const ClassPath := Location("CLASS_PATH", false)

  /**
   * A `java.net.URI`, reduced to its scheme and path. Equality of `Uri` values stands for
   * `URI.equals` on the URIs the manager's URI functions produce; the case-insensitive
   * parts of `URI.equals` (scheme, escaped octets) are not modelled.
   */
  datatype Uri = Uri(scheme: string, path: string)

  /** The exception raised when reading a file that has no content. */
  datatype IoError = FileNotFound

  /**
   * `Charset.defaultCharset()`: the conversion between text and bytes that the
   * platform uses. The manager receives it once and hands it to every file object,
   * which keeps it as a constant.
   */
  datatype Charset = Charset(encode: string -> seq<bv8>, decode: seq<bv8> -> string)
}
