/** Option and Result, and the byte type shared by the codecs. */
module Wrappers {
  datatype Option<+T> = None | Some(value: T)

  datatype Result<+T, +E> = Ok(value: T) | Err(error: E)

  /** One octet of a C++ `std::string` or `std::vector<uint8_t>`. */
  type byte = b: int | 0 <= b < 256
}
