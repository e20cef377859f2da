/** The stored on/off setting (`loadSettings`). */
module Settings {

  /** What storage holds under the key `extensionEnabled`: nothing, a
      boolean, or some other JSON value. */
  datatype StoredValue = Absent | Flag(b: bool) | OtherValue

  /** The outcome of the asynchronous storage read. */
  datatype StorageRead = ReadOk(value: StoredValue) | ReadFailed

  /** `result.extensionEnabled !== false`, and `true` when the read throws:
      the extension is off only when storage holds exactly `false`. */
  function LoadedSetting(read: StorageRead): (enabled: bool)
    ensures !enabled <==> read == ReadOk(Flag(false))
    ensures read.ReadFailed? || read.value.Absent? ==> enabled
  {
    match read
    case ReadFailed => true
    case ReadOk(value) => !(value.Flag? && value.b == false)
  }
}
