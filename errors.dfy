/** Error kinds and result wrappers shared by the tag-length and frame codecs. */
module Errors {

  /** The failures the codec distinguishes.
      Truncated       -- io.ErrUnexpectedEOF: frame too short, or a declared length that does not fit;
      InvalidChecksum -- errInvalidChecksum: the trailing CRC-32 does not match the body;
      LengthBuffer    -- the tag-length codec was handed a window that is not exactly two bytes;
      LargeTag        -- a tag length of 128 or more ("large tags not implemented"). */
  datatype Error = Truncated | InvalidChecksum | LengthBuffer | LargeTag

  /** A value or the error that prevented computing it (Go's `(T, error)` pair). */
  datatype Result<T> = Ok(value: T) | Err(error: Error)

  datatype Option<T> = None | Some(value: T)
}
