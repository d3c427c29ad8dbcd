module ByteType {
  newtype Byte = x | 0 <= x < 256
}
