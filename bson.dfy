/**
 * The two kinds of BSON value the services compare a stored field against:
 * a string, and an ObjectId built from its hexadecimal text.
 */
module Bson {
  datatype BsonValue = BsonString(s: string) | BsonObjectId(hex: string)

  predicate IsHexDigit(c: char) {
    '0' <= c <= '9' || 'a' <= c <= 'f' || 'A' <= c <= 'F'
  }

  /**
   * The text that the ObjectId string constructor accepts: exactly 24
   * hexadecimal digits. Any other text makes it throw
   * IllegalArgumentException.
   */
  predicate IsValidObjectIdHex(s: string) {
    |s| == 24 && forall i :: 0 <= i < |s| ==> IsHexDigit(s[i])
  }
}
