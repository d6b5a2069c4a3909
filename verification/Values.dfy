// Values that several parts of the model share.
module Values {
  // An identifier is the text it is written as.
  datatype Id = Id(text: string)

  type CoreId = Id
  type ProxyId = Id
  type ProfileId = Id

  type Byte = b: int | 0 <= b < 256
  type Bytes = seq<Byte>
}
