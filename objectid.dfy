/** A MongoDB ObjectId (twelve bytes) and its `toString()`: 24 lower-case hex digits. */
module ObjectIds {
  import opened Wrappers

  type Byte = x: int | 0 <= x < 256

  /** The number of bytes in an ObjectId. */
  const IdBytes := 12

  datatype ObjectId = ObjectId(bytes: seq<Byte>)

  ghost predicate WellFormed(id: ObjectId) { |id.bytes| == IdBytes }

  /** A lower-case hexadecimal digit, as `toString` prints them. */
  predicate IsHexChar(c: char) { '0' <= c <= '9' || 'a' <= c <= 'f' }

  function HexDigit(n: int): (c: char)
    requires 0 <= n < 16
    ensures IsHexChar(c)
  {
    if n < 10 then ('0' as int + n) as char else ('a' as int + n - 10) as char
  }

  /** The value of a hex digit, or None for any other character. */
  function HexValue(c: char): (r: Option<nat>)
    ensures r.Some? <==> IsHexChar(c)
    ensures r.Some? ==> r.value < 16 && HexDigit(r.value) == c
  {
    if '0' <= c <= '9' then Some(c as int - '0' as int)
    else if 'a' <= c <= 'f' then Some(c as int - 'a' as int + 10)
    else None
  }

  /** Two hex digits per byte, high nibble first. */
  function Hex(bytes: seq<Byte>): (s: string)
    ensures |s| == 2 * |bytes|
    ensures forall i :: 0 <= i < |s| ==> IsHexChar(s[i])
  {
    if bytes == [] then []
    else [HexDigit(bytes[0] / 16), HexDigit(bytes[0] % 16)] + Hex(bytes[1..])
  }

  /** The inverse of Hex: None unless the text is an even number of hex digits. */
  function ParseHex(s: string): (r: Option<seq<Byte>>)
    decreases |s|
  {
    if s == [] then Some([])
    else if |s| == 1 then None
    else match (HexValue(s[0]), HexValue(s[1]), ParseHex(s[2..]))
      case (Some(hi), Some(lo), Some(rest)) => Some([hi * 16 + lo] + rest)
      case _ => None
  }

  /** `ObjectId.prototype.toString`. */
  function IdToString(id: ObjectId): string
  {
    Hex(id.bytes)
  }

  lemma {:induction false} ParseHexOfHex(bytes: seq<Byte>)
    ensures ParseHex(Hex(bytes)) == Some(bytes)
  {
    if bytes != [] {
      var s := Hex(bytes);
      assert s[2..] == Hex(bytes[1..]);
      ParseHexOfHex(bytes[1..]);
      assert HexValue(s[0]) == Some(bytes[0] / 16);
      assert HexValue(s[1]) == Some(bytes[0] % 16);
      assert [bytes[0]] + bytes[1..] == bytes;
    }
  }

  /** The string form of a well-formed id is 24 hex digits, and distinct ids print differently. */
  lemma IdToStringFacts(a: ObjectId, b: ObjectId)
    requires WellFormed(a)
    ensures |IdToString(a)| == 24
    ensures forall i :: 0 <= i < 24 ==> IsHexChar(IdToString(a)[i])
    ensures IdToString(a) == IdToString(b) ==> a == b
  {
    ParseHexOfHex(a.bytes);
    ParseHexOfHex(b.bytes);
  }
}
