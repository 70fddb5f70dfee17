/**
 * Block-cipher plaintext padding (crypto.go).
 *
 * PKCS#5/PKCS#7 padding as in section 6.3 of RFC 5652, zero padding, and the
 * switch on the Padding setting of a Crypto value. The ciphers themselves
 * (AES, DES and their modes) are not part of this model.
 */
module BlockPadding {

  /** A Go byte. */
  type byte = x: int | 0 <= x < 256

  /** n copies of b, as bytes.Repeat([]byte{b}, n). */
  function Repeat(b: byte, n: nat): (r: seq<byte>)
    ensures |r| == n
    ensures forall i :: 0 <= i < n ==> r[i] == b
  {
    seq(n, _ => b)
  }

  /**
   * blockSize - len % blockSize: how many bytes both padding schemes append.
   * Go's % truncates toward zero, which agrees with Dafny's % here because
   * both operands are non-negative.
   */
  function PadCount(len: nat, blockSize: int): (p: int)
    requires blockSize > 0
    ensures 1 <= p <= blockSize
    ensures len + p == (len / blockSize + 1) * blockSize
    ensures (len + p) % blockSize == 0
  {
    var p := blockSize - len % blockSize;
    WholeBlocks(len + p, len / blockSize + 1, blockSize);
    p
  }

  /** A whole number of blocks: n == m * b leaves no remainder modulo b. */
  lemma WholeBlocks(n: nat, m: nat, b: int)
    requires b > 0 && n == m * b
    ensures n % b == 0
  {
    var q, r := n / b, n % b;
    assert n == q * b + r && 0 <= r < b;
    assert (m - q) * b == r;
    if m - q >= 1 {
      assert false;
    } else if m - q <= -1 {
      assert false;
    }
  }

  /**
   * pKCS5Padding: append p bytes, each holding byte(p). The conversion
   * byte(p) keeps p modulo 256, which matters for block sizes above 255.
   */
  function PKCS5Padding(data: seq<byte>, blockSize: int): (r: seq<byte>)
    requires blockSize > 0
    ensures |r| == (|data| / blockSize + 1) * blockSize
    ensures |data| < |r| <= |data| + blockSize
    ensures r[..|data|] == data
    ensures forall i :: |data| <= i < |r| ==> r[i] == (|r| - |data|) % 256
    ensures |r| % blockSize == 0
  {
    var p := PadCount(|data|, blockSize);
    data + Repeat(p % 256, p)
  }

  /**
   * pKCS5UnPadding: drop as many trailing bytes as the last byte says. Go
   * panics on an empty slice or on a count larger than the length.
   */
  function PKCS5UnPadding(data: seq<byte>): (r: seq<byte>)
    requires |data| > 0 && data[|data| - 1] <= |data|
    ensures |r| == |data| - data[|data| - 1]
    ensures r == data[..|r|]
  {
    data[..|data| - data[|data| - 1]]
  }

  /** zeroPadding: append between 1 and blockSize zero bytes. */
  function ZeroPadding(data: seq<byte>, blockSize: int): (r: seq<byte>)
    requires blockSize > 0
    ensures |r| == (|data| / blockSize + 1) * blockSize
    ensures |data| < |r| <= |data| + blockSize
    ensures r[..|data|] == data
    ensures forall i :: |data| <= i < |r| ==> r[i] == 0
    ensures |r| % blockSize == 0
  {
    data + Repeat(0, PadCount(|data|, blockSize))
  }

  /** Leading zero bytes removed (bytes.TrimLeftFunc). */
  function TrimLeftZeros(data: seq<byte>): (r: seq<byte>)
  {
    if data != [] && data[0] == 0 then TrimLeftZeros(data[1..]) else data
  }

  /** Trailing zero bytes removed (bytes.TrimRightFunc). */
  function TrimRightZeros(data: seq<byte>): (r: seq<byte>)
  {
    if data != [] && data[|data| - 1] == 0 then TrimRightZeros(data[..|data| - 1]) else data
  }

  lemma {:induction false} TrimLeftZerosIsSuffix(data: seq<byte>)
    ensures var r := TrimLeftZeros(data);
      |r| <= |data| && r == data[|data| - |r|..]
      && (r != [] ==> r[0] != 0)
      && forall k :: 0 <= k < |data| - |r| ==> data[k] == 0
  {
    if data != [] && data[0] == 0 {
      var tail := data[1..];
      TrimLeftZerosIsSuffix(tail);
      var r := TrimLeftZeros(tail);
      assert TrimLeftZeros(data) == r;
      assert r == tail[|tail| - |r|..] == data[|data| - |r|..];
      forall k | 0 <= k < |data| - |r|
        ensures data[k] == 0
      {
        if k > 0 {
          assert data[k] == tail[k - 1];
        }
      }
    }
  }

  lemma {:induction false} TrimRightZerosIsPrefix(data: seq<byte>)
    ensures var r := TrimRightZeros(data);
      |r| <= |data| && r == data[..|r|]
      && (r != [] ==> r[|r| - 1] != 0)
      && forall k :: |r| <= k < |data| ==> data[k] == 0
  {
    if data != [] && data[|data| - 1] == 0 {
      var init := data[..|data| - 1];
      TrimRightZerosIsPrefix(init);
      var r := TrimRightZeros(init);
      assert TrimRightZeros(data) == r;
      assert r == init[..|r|] == data[..|r|];
      forall k | |r| <= k < |data|
        ensures data[k] == 0
      {
        if k < |init| {
          assert data[k] == init[k];
        }
      }
    }
  }

  /**
   * zeroUnPadding: bytes.TrimFunc with "rune is 0", which strips zero bytes
   * from BOTH ends. A 0x00 byte always decodes as the one-byte rune U+0000
   * and is never part of a longer UTF-8 sequence, so trimming runes equal to
   * 0 is the same as trimming zero bytes.
   */
  function ZeroUnPadding(data: seq<byte>): (r: seq<byte>)
    ensures exists i, j ::
      && 0 <= i <= j <= |data| && r == data[i..j]
      && (forall k :: 0 <= k < i ==> data[k] == 0)
      && (forall k :: j <= k < |data| ==> data[k] == 0)
    ensures r != [] ==> r[0] != 0 && r[|r| - 1] != 0
  {
    var left := TrimLeftZeros(data);
    TrimLeftZerosIsSuffix(data);
    TrimRightZerosIsPrefix(left);
    var r := TrimRightZeros(left);
    var i := |data| - |left|;
    assert left == data[i..];
    assert r == data[i..][..|r|] == data[i..i + |r|];
    r
  }

  /** PKCS#5 round trip, for every block size whose count fits in a byte. */
  lemma PKCS5RoundTrip(data: seq<byte>, blockSize: int)
    requires 0 < blockSize <= 255
    ensures PKCS5UnPadding(PKCS5Padding(data, blockSize)) == data
  {
    var r := PKCS5Padding(data, blockSize);
    assert r[|r| - 1] == |r| - |data|;
  }

  /**
   * With a block size of 256 the count 256 wraps to byte 0, so an input of a
   * whole number of blocks does not come back.
   */
  lemma PKCS5RoundTripFailsAt256()
    ensures PKCS5UnPadding(PKCS5Padding([], 256)) != []
  {
    var r := PKCS5Padding([], 256);
    assert r[255] == 0;
  }

  /** Zero padding round trip: it holds when the data has no zero byte at either end. */
  lemma ZeroRoundTrip(data: seq<byte>, blockSize: int)
    requires blockSize > 0
    requires data == [] || (data[0] != 0 && data[|data| - 1] != 0)
    ensures ZeroUnPadding(ZeroPadding(data, blockSize)) == data
  {
    StripZeroTail(data, ZeroPadding(data, blockSize));
  }

  /** Any data followed only by zero bytes comes back from ZeroUnPadding. */
  lemma StripZeroTail(data: seq<byte>, padded: seq<byte>)
    requires data == [] || (data[0] != 0 && data[|data| - 1] != 0)
    requires |data| <= |padded| && padded[..|data|] == data
    requires forall k :: |data| <= k < |padded| ==> padded[k] == 0
    ensures ZeroUnPadding(padded) == data
  {
    var r := ZeroUnPadding(padded);
    var i, j :|
      && 0 <= i <= j <= |padded| && r == padded[i..j]
      && (forall k :: 0 <= k < i ==> padded[k] == 0)
      && (forall k :: j <= k < |padded| ==> padded[k] == 0);
    if data == [] {
      if r != [] {
        assert false;
      }
    } else {
      assert padded[0] == data[0] && padded[|data| - 1] == data[|data| - 1];
      if i > 0 {
        assert false;
      }
      if j < |data| {
        assert false;
      }
      if j > |data| {
        assert false;
      }
      assert r == padded[..|data|];
    }
  }

  /** ... and only then: a zero byte at either end of non-empty data is lost. */
  lemma ZeroRoundTripOnlyIf(data: seq<byte>, blockSize: int)
    requires blockSize > 0
    requires data != [] && (data[0] == 0 || data[|data| - 1] == 0)
    ensures ZeroUnPadding(ZeroPadding(data, blockSize)) != data
  {
    var r := ZeroUnPadding(ZeroPadding(data, blockSize));
    if r != [] {
      assert r[0] != 0 && r[|r| - 1] != 0;
    }
  }

  /** A Crypto value: the key, IV and the names of algorithm, mode and padding. */
  datatype Crypto = Crypto(Key: seq<byte>, IV: seq<byte>, Algorithm: string, Mode: string, Padding: string)

  /** NewCrypto: AES in CBC mode with PKCS5 padding, the key doubling as IV. */
  function NewCrypto(key: seq<byte>): (c: Crypto)
    ensures c.Key == key && c.IV == key
    ensures c.Algorithm == "AES" && c.Mode == "CBC" && c.Padding == "PKCS5"
  {
    Crypto(key, key, "AES", "CBC", "PKCS5")
  }

  /** Crypto.padding: "PKCS5" selects PKCS#5 padding, anything else zero padding. */
  function Pad(c: Crypto, data: seq<byte>, blockSize: int): (r: seq<byte>)
    requires blockSize > 0
    ensures |data| < |r| <= |data| + blockSize
    ensures r[..|data|] == data
    ensures |r| % blockSize == 0
    ensures c.Padding == "PKCS5" ==> forall i :: |data| <= i < |r| ==> r[i] == (|r| - |data|) % 256
    ensures c.Padding != "PKCS5" ==> forall i :: |data| <= i < |r| ==> r[i] == 0
  {
    if c.Padding == "PKCS5" then PKCS5Padding(data, blockSize) else ZeroPadding(data, blockSize)
  }

  /** Crypto.unpadding: the removal matching Pad. */
  function Unpad(c: Crypto, data: seq<byte>): (r: seq<byte>)
    requires c.Padding == "PKCS5" ==> |data| > 0 && data[|data| - 1] <= |data|
    ensures c.Padding == "PKCS5" ==> |r| == |data| - data[|data| - 1] && r == data[..|r|]
    ensures c.Padding != "PKCS5" ==> exists i, j ::
      && 0 <= i <= j <= |data| && r == data[i..j]
      && (forall k :: 0 <= k < i ==> data[k] == 0)
      && (forall k :: j <= k < |data| ==> data[k] == 0)
    ensures c.Padding != "PKCS5" && r != [] ==> r[0] != 0 && r[|r| - 1] != 0
  {
    if c.Padding == "PKCS5" then PKCS5UnPadding(data) else ZeroUnPadding(data)
  }

  /** Unpad undoes Pad: always under PKCS5, and under zero padding when the data has no zero at either end. */
  lemma CryptoRoundTrip(c: Crypto, data: seq<byte>, blockSize: int)
    requires blockSize > 0
    requires c.Padding == "PKCS5" ==> blockSize <= 255
    requires c.Padding != "PKCS5" ==> data == [] || (data[0] != 0 && data[|data| - 1] != 0)
    ensures var padded := Pad(c, data, blockSize);
      (c.Padding == "PKCS5" ==> |padded| > 0 && padded[|padded| - 1] <= |padded|)
      && Unpad(c, padded) == data
  {
    if c.Padding == "PKCS5" {
      PKCS5RoundTrip(data, blockSize);
    } else {
      ZeroRoundTrip(data, blockSize);
    }
  }
}
