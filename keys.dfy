/**
 * Opaque stand-ins for what the Go cryptography libraries hand back:
 * parsed RSA keys and the libraries' own error values. Their inner
 * structure is never inspected by the modelled code.
 */
module Keys {

  import opened Wrappers

  type Bytes = seq<bv8>

  /** A parsed RSA private key (`*rsa.PrivateKey`), identified by its encoding. */
  datatype PrivateKey = PrivateKey(der: Bytes)

  /** A parsed RSA public key (`*rsa.PublicKey`), identified by its encoding. */
  datatype PublicKey = PublicKey(der: Bytes)

  /** An error value produced inside a library (`error`), carried but never examined. */
  datatype LibError = LibError(description: string)

  /** `base64.StdEncoding.DecodeString`: a partial decoder, None on malformed input. */
  type Base64Decoder = string -> Option<Bytes>

  /** `jwt.ParseRSAPrivateKeyFromPEM`: None when the bytes are not a PEM RSA private key. */
  type PrivateKeyParser = Bytes -> Option<PrivateKey>

  /** `jwt.ParseRSAPublicKeyFromPEM`: None when the bytes are not a PEM RSA public key. */
  type PublicKeyParser = Bytes -> Option<PublicKey>
}
