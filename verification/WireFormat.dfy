/** The Confluent wire format: a zero byte, the schema id as four big-endian bytes, the payload. */
module WireFormat {
  import opened Bytes

  const UINT32_END := 0x1_0000_0000

  datatype Decoded = Message(id: int, payload: seq<byte>) | TooShort(length: nat) | BadMagic(magic: byte)

  /** The number four bytes denote, most significant first. */
  function BigEndian(b: seq<byte>): (n: nat)
    requires |b| == 4
    ensures n < UINT32_END
  {
    ((b[0] as int * 256 + b[1] as int) * 256 + b[2] as int) * 256 + b[3] as int
  }

  /** The low 32 bits of an id, most significant byte first. */
  function Uint32Bytes(id: int): (b: seq<byte>)
    ensures |b| == 4 && BigEndian(b) == id % UINT32_END
  {
    var n := id % UINT32_END;
    SplitBytes(n);
    [(n / 0x100_0000) as byte, (n / 0x1_0000 % 256) as byte, (n / 256 % 256) as byte, (n % 256) as byte]
  }

  lemma SplitBytes(n: nat)
    requires n < UINT32_END
    ensures n / 0x100_0000 < 256
    ensures n == ((n / 0x100_0000 * 256 + n / 0x1_0000 % 256) * 256 + n / 256 % 256) * 256 + n % 256
  {
    assert n / 0x1_0000 == n / 256 / 256 && n / 0x100_0000 == n / 256 / 256 / 256;
  }

  lemma LastDigit(x: int, c: int, y: int, d: int)
    requires x * 256 + c == y * 256 + d && 0 <= c < 256 && 0 <= d < 256
    ensures x == y && c == d
  {
  }

  /** Four bytes are determined by their number. */
  lemma BigEndianInjective(a: seq<byte>, b: seq<byte>)
    requires |a| == |b| == 4 && BigEndian(a) == BigEndian(b)
    ensures a == b
  {
    var x, y := (a[0] as int * 256 + a[1] as int) * 256 + a[2] as int,
        (b[0] as int * 256 + b[1] as int) * 256 + b[2] as int;
    LastDigit(x, a[3] as int, y, b[3] as int);
    LastDigit(a[0] as int * 256 + a[1] as int, a[2] as int, b[0] as int * 256 + b[1] as int, b[2] as int);
    LastDigit(a[0] as int, a[1] as int, b[0] as int, b[1] as int);
  }

  lemma DivideSum(n: int, q: int, k: int)
    requires k > 0
    ensures (n + q * k) / k == n / k + q
  {
    var m := n + q * k;
    assert k * (m / k - n / k - q) == n % k - m % k;
    Between(m / k - n / k - q, k);
  }

  lemma Between(x: int, k: int)
    requires -k < k * x < k
    ensures x == 0
  {
  }

  /** A byte above the low 32 bits does not show in the byte that counts k. */
  lemma LowByte(n: nat, q: int, k: int, rest: int)
    requires k > 0 && rest % 256 == 0
    ensures (n + q * rest * k) / k % 256 == n / k % 256
  {
    var whole := q * rest;
    DivideSum(n, whole, k);
    var r := rest / 256;
    assert whole == (q * r) * 256;
    DivideSum(n / k, q * r, 256);
  }

  /** The bytes of the low 32 bits of any id. */
  lemma LowBytes(id: int)
    ensures
      var n := id % UINT32_END;
      && n / 0x100_0000 == id / 0x100_0000 % 256 && n / 0x1_0000 % 256 == id / 0x1_0000 % 256
      && n / 256 % 256 == id / 256 % 256 && n % 256 == id % 256
  {
    var n, q := id % UINT32_END, id / UINT32_END;
    LowByte(n, q, 0x100_0000, 0x100);
    LowByte(n, q, 0x1_0000, 0x1_0000);
    LowByte(n, q, 0x100, 0x100_0000);
    LowByte(n, q, 1, UINT32_END);
    SplitBytes(n);
  }

  function Header(id: int): seq<byte> { [0 as byte] + Uint32Bytes(id) }

  /** EncodeSchemaID: a five-byte buffer filled in place; the id is truncated to 32 bits. */
  method EncodeSchemaID(schemaID: int) returns (buf: array<byte>)
    ensures fresh(buf) && buf.Length == 5 && buf[0] == 0
    ensures BigEndian(buf[1..5]) == schemaID % UINT32_END
    ensures buf[1] as int == schemaID / 0x100_0000 % 256 && buf[2] as int == schemaID / 0x1_0000 % 256
    ensures buf[3] as int == schemaID / 256 % 256 && buf[4] as int == schemaID % 256
    ensures buf[..] == Header(schemaID)
  {
    buf := new byte[5];
    buf[0] := 0;
    var n := schemaID % UINT32_END;
    SplitBytes(n);
    LowBytes(schemaID);
    buf[1] := (n / 0x100_0000) as byte;
    buf[2] := (n / 0x1_0000 % 256) as byte;
    buf[3] := (n / 256 % 256) as byte;
    buf[4] := (n % 256) as byte;
    assert buf[1..5] == [buf[1], buf[2], buf[3], buf[4]];
    BigEndianInjective(buf[1..5], Uint32Bytes(schemaID));
    assert buf[..] == [buf[0]] + buf[1..5];
  }

  function DecodeSchemaID(data: seq<byte>): Decoded {
    if |data| < 5 then TooShort(|data|)
    else if data[0] != 0 then BadMagic(data[0])
    else Message(BigEndian(data[1..5]), data[5..])
  }

  /** Decoding an encoded header in front of any payload gives back the payload, and gives back the id
      exactly when it fits in 32 bits. */
  lemma EncodeThenDecode(id: int, payload: seq<byte>)
    ensures DecodeSchemaID(Header(id) + payload) == Message(id % UINT32_END, payload)
    ensures DecodeSchemaID(Header(id) + payload) == Message(id, payload) <==> 0 <= id < UINT32_END
  {
    var m := Header(id) + payload;
    assert m[1..5] == Uint32Bytes(id) && m[5..] == payload;
  }

  /** Every accepted message is the encoding of what was decoded from it. */
  lemma DecodeThenEncode(data: seq<byte>)
    requires DecodeSchemaID(data).Message?
    ensures Header(DecodeSchemaID(data).id) + DecodeSchemaID(data).payload == data
    ensures 0 <= DecodeSchemaID(data).id < UINT32_END
  {
    BigEndianInjective(data[1..5], Uint32Bytes(BigEndian(data[1..5])));
    assert data == [data[0]] + data[1..5] + data[5..];
  }

  /** Accepted are the messages with a header and no others; what is refused is too short or of another format. */
  lemma AcceptsHeaders(data: seq<byte>)
    ensures DecodeSchemaID(data).Message? <==> exists id, payload :: data == Header(id) + payload
    ensures DecodeSchemaID(data) == TooShort(|data|) <==> |data| < 5
    ensures DecodeSchemaID(data).BadMagic? <==> |data| >= 5 && data[0] != 0
  {
    if DecodeSchemaID(data).Message? {
      DecodeThenEncode(data);
    }
    if id, payload :| data == Header(id) + payload {
      EncodeThenDecode(id, payload);
    }
  }
}
