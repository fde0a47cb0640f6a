/** GenerateMultipartPresignedGetURLs: the byte ranges of a multipart download. */
module RangePlan {
  import opened Text
  import opened Float64

  const DEFAULT_PART_SIZE := 5 * 1024 * 1024

  /** First and last byte, both included. */
  datatype ByteRange = ByteRange(first: int, last: int)

  datatype RangeError = PresignFailed(part: int)

  datatype Result<+T> = Ok(value: T) | Err(error: RangeError)

  /** The header value "bytes=first-last". */
  function RangeHeader(first: nat, last: nat): string {
    "bytes=" + Decimal(first) + "-" + Decimal(last)
  }

  /** A byte-range-set with one int-range (section 14.1.2 of RFC 9110). */
  function ParseRange(s: string): Option<ByteRange> {
    if |s| < 6 || s[..6] != "bytes=" then None
    else
      var ends := Split(s[6..], '-');
      if |ends| != 2 then None
      else
        var a, b := ParseDecimal(ends[0]), ParseDecimal(ends[1]);
        if a.None? || b.None? || b.value < a.value then None else Some(ByteRange(a.value, b.value))
  }

  /** A printed header reads back as its pair. */
  lemma HeaderParses(first: nat, last: nat)
    requires first <= last
    ensures ParseRange(RangeHeader(first, last)) == Some(ByteRange(first, last))
  {
    var a, b := Decimal(first), Decimal(last);
    var s := RangeHeader(first, last);
    assert s[..6] == "bytes=" && s[6..] == a + ['-'] + b;
    DecimalValue(first);
    DecimalValue(last);
    assert '-' !in a && '-' !in b by {
      assert !IsDigit('-');
    }
    SplitPrefix(a, b, '-');
    SplitWhole(b, '-');
  }

  /** Non-empty ranges that follow one another without gap or overlap and cover [0, total). */
  predicate Tiles(ranges: seq<ByteRange>, total: int) {
    && (forall i :: 0 <= i < |ranges| ==> 0 <= ranges[i].first <= ranges[i].last < total)
    && (forall i :: 0 < i < |ranges| ==> ranges[i].first == ranges[i - 1].last + 1)
    && (if ranges == [] then total == 0 else ranges[0].first == 0 && ranges[|ranges| - 1].last == total - 1)
  }

  /** Each byte lies in exactly one of the ranges. */
  lemma {:induction false} TilesPartition(ranges: seq<ByteRange>, total: int, k: int) returns (i: nat)
    requires Tiles(ranges, total) && 0 <= k < total
    ensures i < |ranges| && ranges[i].first <= k <= ranges[i].last
    ensures forall j :: 0 <= j < |ranges| && ranges[j].first <= k <= ranges[j].last ==> j == i
  {
    i := 0;
    while ranges[i].last < k
      decreases |ranges| - i
      invariant i < |ranges| && ranges[i].first <= k
    {
      i := i + 1;
    }
    forall j | 0 <= j < |ranges| && ranges[j].first <= k <= ranges[j].last ensures j == i {
      RangesApart(ranges, total, j, i);
      RangesApart(ranges, total, i, j);
    }
  }

  lemma {:induction false} RangesApart(ranges: seq<ByteRange>, total: int, i: int, j: int)
    requires Tiles(ranges, total) && 0 <= i < |ranges| && 0 <= j < |ranges|
    ensures i < j ==> ranges[i].last < ranges[j].first
    decreases j - i
  {
    if i + 1 < j {
      RangesApart(ranges, total, i, j - 1);
    }
  }

  /** Concatenating the ranges of an object gives the object. */
  function Fetch<B>(content: seq<B>, ranges: seq<ByteRange>): seq<B>
    requires forall i :: 0 <= i < |ranges| ==> 0 <= ranges[i].first <= ranges[i].last < |content|
    decreases |ranges|
  {
    if ranges == [] then []
    else
      var r := ranges[|ranges| - 1];
      Fetch(content, ranges[..|ranges| - 1]) + content[r.first..r.last + 1]
  }

  lemma {:induction false} FetchPrefix<B>(content: seq<B>, ranges: seq<ByteRange>, k: nat)
    requires Tiles(ranges, |content|) && k <= |ranges|
    ensures Fetch(content, ranges[..k]) == content[..if k == 0 then 0 else ranges[k - 1].last + 1]
  {
    if k > 0 {
      FetchPrefix(content, ranges, k - 1);
      assert ranges[..k][..k - 1] == ranges[..k - 1];
    }
  }

  lemma FetchWhole<B>(content: seq<B>, ranges: seq<ByteRange>)
    requires Tiles(ranges, |content|)
    ensures Fetch(content, ranges) == content
  {
    FetchPrefix(content, ranges, |ranges|);
    assert ranges[..|ranges|] == ranges;
  }

  /** The i-th range by its definition. */
  function RangeAt(total: nat, size: nat, i: nat): ByteRange {
    var last := i * size + size - 1;
    ByteRange(i * size, if last >= total then total - 1 else last)
  }

  function Ranges(total: nat, size: nat): (r: seq<ByteRange>)
    requires size > 0
    ensures |r| == CeilDiv(total, size) && forall i :: 0 <= i < |r| ==> r[i] == RangeAt(total, size, i)
    ensures forall i :: 0 <= i < |r| ==> 0 <= r[i].first <= r[i].last
  {
    CeilDivNonNegative(total, size);
    RangesFit(total, size);
    seq(CeilDiv(total, size), i requires 0 <= i < CeilDiv(total, size) => RangeAt(total, size, i))
  }

  lemma RangesFit(total: nat, size: nat)
    requires size > 0
    ensures forall i: nat :: i < CeilDiv(total, size) ==>
      0 <= RangeAt(total, size, i).first <= RangeAt(total, size, i).last
  {
    forall i: nat | i < CeilDiv(total, size)
      ensures 0 <= RangeAt(total, size, i).first <= RangeAt(total, size, i).last
    {
      RangeAtFits(total, size, i);
    }
  }

  lemma CeilDivNonNegative(a: int, b: int)
    requires a >= 0 && b > 0
    ensures CeilDiv(a, b) >= 0
    ensures CeilDiv(a, b) == 0 <==> a == 0
  {
    var c := CeilDiv(a, b);
    assert c < 0 ==> c * b < 0;
    assert c >= 1 ==> (c - 1) * b >= 0;
  }

  /** One range of the plan: not empty, starting where the one before ends, full unless it is the last. */
  lemma RangeAtFits(total: nat, size: nat, i: nat)
    requires size > 0 && i < CeilDiv(total, size)
    ensures 0 <= RangeAt(total, size, i).first <= RangeAt(total, size, i).last < total
    ensures i > 0 ==> RangeAt(total, size, i).first == RangeAt(total, size, i - 1).last + 1
    ensures i < CeilDiv(total, size) - 1 ==> RangeAt(total, size, i).last == i * size + size - 1
    ensures i == CeilDiv(total, size) - 1 ==> RangeAt(total, size, i).last == total - 1
  {
    var n := CeilDiv(total, size);
    Products(i, n - 1, size);
    Products(i + 1, n - 1, size);
    Products(n, i + 1, size);
    assert (i + 1) * size == i * size + size;
    if i > 0 {
      assert (i - 1) * size + size == i * size;
    }
  }

  lemma Products(i: int, j: int, size: nat)
    ensures i <= j ==> i * size <= j * size
  {
  }

  /** For any total size and any positive part size the ranges tile the object, all but the last full. */
  lemma {:induction false} RangesTile(total: nat, size: nat)
    requires size > 0
    ensures Tiles(Ranges(total, size), total)
    ensures forall i :: 0 <= i < |Ranges(total, size)| - 1 ==>
      Ranges(total, size)[i].last - Ranges(total, size)[i].first + 1 == size
  {
    var r := Ranges(total, size);
    CeilDivNonNegative(total, size);
    forall i | 0 <= i < |r|
      ensures 0 <= r[i].first <= r[i].last < total
      ensures i > 0 ==> r[i].first == r[i - 1].last + 1
      ensures i < |r| - 1 ==> r[i].last - r[i].first + 1 == size
    {
      RangeAtFits(total, size, i);
    }
    if r != [] {
      RangeAtFits(total, size, |r| - 1);
      assert r[0].first == 0;
    }
  }

  /** The ranges a server reads out of the headers. */
  function Parsed(headers: seq<string>): (r: seq<ByteRange>)
    ensures |r| == |headers|
    ensures forall i :: 0 <= i < |r| && ParseRange(headers[i]).Some? ==> r[i] == ParseRange(headers[i]).value
  {
    seq(|headers|, i requires 0 <= i < |headers| =>
      match ParseRange(headers[i]) case Some(b) => b case None => ByteRange(0, -1))
  }

  lemma HeadersParse(headers: seq<string>, ranges: seq<ByteRange>)
    requires |headers| == |ranges| && forall j :: 0 <= j < |ranges| ==> 0 <= ranges[j].first <= ranges[j].last
    requires forall j :: 0 <= j < |ranges| ==> headers[j] == RangeHeader(ranges[j].first, ranges[j].last)
    ensures Parsed(headers) == ranges
    ensures forall j :: 0 <= j < |ranges| ==> ParseRange(headers[j]).Some?
  {
    forall j | 0 <= j < |ranges| ensures ParseRange(headers[j]) == Some(ranges[j]) {
      HeaderParses(ranges[j].first, ranges[j].last);
    }
  }

  /** The range loop. `presign` stands for the library's answer for one range header. Sizes are int64;
      an object has at most 5 TiB, well below 2^53. A part size of zero stands for 5 MiB. */
  method GenerateRanges(rnd: real -> real, totalSize: nat, partSize: nat, presign: string -> Option<string>)
    returns (r: Result<(seq<string>, seq<string>)>)
    requires Rounding(rnd) && totalSize < EXACT && partSize < INT64_END
    ensures r.Ok? ==> |r.value.0| == |r.value.1| && Tiles(Parsed(r.value.0), totalSize)
    ensures r.Ok? ==> forall i :: 0 <= i < |r.value.0| ==>
      ParseRange(r.value.0[i]).Some? && presign(r.value.0[i]) == Some(r.value.1[i])
    ensures r.Ok? ==>
      var size := if partSize > 0 then partSize else 5242880;
      && |r.value.0| == CeilDiv(totalSize, size)
      && forall i :: 0 <= i < |r.value.0| - 1 ==>
        Parsed(r.value.0)[i].last - Parsed(r.value.0)[i].first + 1 == size
    ensures r.Err? ==>
      var ranges, k := Ranges(totalSize, if partSize > 0 then partSize else 5242880), r.error.part - 1;
      && 0 <= k < |ranges| && presign(RangeHeader(ranges[k].first, ranges[k].last)).None?
      && forall j :: 0 <= j < k ==> presign(RangeHeader(ranges[j].first, ranges[j].last)).Some?
  {
    var size := partSize;
    if size == 0 {
      size := DEFAULT_PART_SIZE;
    }
    CeilQuotientExact(rnd, totalSize, size);
    var partCount := CeilQuotient(rnd, totalSize, size);
    RangesTile(totalSize, size);
    r := SignRanges(totalSize, size, partCount, presign);
    if r.Ok? {
      HeadersParse(r.value.0, Ranges(totalSize, size));
    }
  }

  /** The loop of GenerateRanges: one header and one URL per range, up to the first that cannot be signed. */
  method SignRanges(totalSize: nat, size: nat, partCount: nat, presign: string -> Option<string>)
    returns (r: Result<(seq<string>, seq<string>)>)
    requires 0 < size < INT64_END && totalSize < EXACT && partCount == CeilDiv(totalSize, size)
    ensures
      var ranges := Ranges(totalSize, size);
      match r
      case Ok((headers, urls)) =>
        && |headers| == |urls| == partCount
        && forall j :: 0 <= j < partCount ==>
             headers[j] == RangeHeader(ranges[j].first, ranges[j].last) && presign(headers[j]) == Some(urls[j])
      case Err(PresignFailed(part)) =>
        && 1 <= part <= partCount && presign(RangeHeader(ranges[part - 1].first, ranges[part - 1].last)).None?
        && forall j :: 0 <= j < part - 1 ==> presign(RangeHeader(ranges[j].first, ranges[j].last)).Some?
  {
    ghost var ranges := Ranges(totalSize, size);
    var urls := new string[partCount];
    var headers := new string[partCount];
    for i := 0 to partCount
      invariant forall j :: 0 <= j < i ==>
        headers[j] == RangeHeader(ranges[j].first, ranges[j].last) && presign(headers[j]) == Some(urls[j])
    {
      var startByte, endByte := RangeBounds(totalSize, size, i);
      headers[i] := RangeHeader(startByte, endByte);
      var url := presign(headers[i]);
      if url.None? {
        return Err(PresignFailed(i + 1));
      }
      urls[i] := url.value;
    }
    return Ok((headers[..], urls[..]));
  }

  /** The clamped bounds of one part. No step wraps around in int64: either i is 0 or the part size is
      below the total size. */
  method RangeBounds(totalSize: nat, size: nat, i: nat) returns (startByte: nat, endByte: nat)
    requires 0 < size < INT64_END && totalSize < EXACT && i < CeilDiv(totalSize, size)
    ensures ByteRange(startByte, endByte) == RangeAt(totalSize, size, i) && startByte <= endByte
    ensures i * size + size - 1 < INT64_END
  {
    RangeAtFits(totalSize, size, i);
    Products(1, i, size);
    startByte := i * size;
    endByte := startByte + size - 1;
    if endByte >= totalSize {
      endByte := totalSize - 1;
    }
  }
}
