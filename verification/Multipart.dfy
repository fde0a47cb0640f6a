/** Multipart upload: the part numbers handed out, the completion request, and the object the store
    assembles from it. */
module Multipart {
  import opened Text
  import opened Float64
  import opened LargeFiles
  import opened PartPlan
  import opened Sorting

  /** NegativeCount is a Go panic, the others are error returns. */
  datatype UploadError =
    | TooLarge | InitiateFailed | NegativeCount | PresignFailed(part: int)
    | NoParts | Mismatch | NotConnected | StoreRejected

  datatype Result<+T> = Ok(value: T) | Err(error: UploadError)

  datatype UploadInfo = UploadInfo(
    uploadId: string, urls: seq<string>, partNumbers: seq<int>, partSize: int, maxParts: int, totalSize: int)

  datatype PartInfo = PartInfo(idx: int, partNumber: int, etag: string)

  datatype CompletePart = CompletePart(partNumber: int, etag: string)

  predicate ByNumber(a: PartInfo, b: PartInfo) { a.partNumber < b.partNumber }

  /** The pairs the caller passed, in the caller's order. */
  function Pairs(numbers: seq<int>, etags: seq<string>): (r: seq<CompletePart>)
    requires |numbers| == |etags|
    ensures |r| == |numbers| && forall i :: 0 <= i < |r| ==> r[i] == CompletePart(numbers[i], etags[i])
  {
    seq(|numbers|, i requires 0 <= i < |numbers| => CompletePart(numbers[i], etags[i]))
  }

  function Strip(p: PartInfo): CompletePart { CompletePart(p.partNumber, p.etag) }

  function StripAll(ps: seq<PartInfo>): (r: seq<CompletePart>)
    ensures |r| == |ps| && forall i :: 0 <= i < |r| ==> r[i] == Strip(ps[i])
  {
    seq(|ps|, i requires 0 <= i < |ps| => Strip(ps[i]))
  }

  predicate AscendingNumbers(parts: seq<CompletePart>) {
    forall i, j :: 0 <= i < j < |parts| ==> parts[i].partNumber <= parts[j].partNumber
  }

  class MinioClient {
    var maxObjectSize: int
    var minPartSize: nat
    var multipartThreshold: int
    var connected: bool
    var aborted: seq<string>

    constructor (maxObjectSize: int, minPartSize: nat, multipartThreshold: int, connected: bool)
      ensures this.maxObjectSize == maxObjectSize && this.minPartSize == minPartSize
      ensures this.multipartThreshold == multipartThreshold && this.connected == connected && aborted == []
    {
      this.maxObjectSize, this.minPartSize := maxObjectSize, minPartSize;
      this.multipartThreshold := multipartThreshold;
      this.connected, this.aborted := connected, [];
    }

    /** The defaults of the upload configuration. */
    method UpdateUploadConfig()
      modifies this`maxObjectSize, this`minPartSize, this`multipartThreshold
      ensures maxObjectSize == if old(maxObjectSize) == 0 then MAX_OBJECT_SIZE else old(maxObjectSize)
      ensures minPartSize == MinPartSize(old(minPartSize))
      ensures multipartThreshold ==
        if old(multipartThreshold) == 0 then MULTIPART_THRESHOLD else old(multipartThreshold)
    {
      if maxObjectSize == 0 {
        maxObjectSize := MAX_OBJECT_SIZE;
      }
      if minPartSize == 0 {
        minPartSize := MIN_PART_SIZE;
      }
      if multipartThreshold == 0 {
        multipartThreshold := MULTIPART_THRESHOLD;
      }
    }

    /** `uploadId` is the store's answer to the initiation, `presign` the library's answers for the
        parts. One URL per planned part, numbered from 1; a failing URL aborts the upload. */
    method GenerateMultipartUploadURLs(rnd: real -> real, fileSize: int, uploadId: Option<string>,
        presign: int -> Option<string>)
      returns (r: Result<UploadInfo>)
      requires Rounding(rnd) && Configurable(minPartSize) && -INT64_END <= fileSize < INT64_END
      modifies this
      ensures
        var (p, n) := CalculateOptimalPartSize(rnd, old(minPartSize), fileSize);
        match r
        case Err(TooLarge) => fileSize > maxObjectSize
        case Err(InitiateFailed) => fileSize <= maxObjectSize && uploadId.None?
        case Err(NegativeCount) => fileSize <= maxObjectSize && uploadId.Some? && n < 0
        case Err(PresignFailed(k)) =>
          && fileSize <= maxObjectSize && 1 <= k <= n
          && presign(k).None? && (forall j :: 1 <= j < k ==> presign(j).Some?)
          && uploadId.Some? && aborted == old(aborted) + [uploadId.value]
        case Err(_) => false
        case Ok(info) =>
          && fileSize <= maxObjectSize && uploadId == Some(info.uploadId)
          && info.partSize == p && info.totalSize == fileSize && info.maxParts == PART_LIMIT
          && |info.partNumbers| == |info.urls| == n
          && (forall i :: 0 <= i < n ==> info.partNumbers[i] == i + 1 && presign(i + 1) == Some(info.urls[i]))
      ensures !(r.Err? && r.error.PresignFailed?) ==> aborted == old(aborted)
      ensures maxObjectSize == if old(maxObjectSize) == 0 then MAX_OBJECT_SIZE else old(maxObjectSize)
    {
      UpdateUploadConfig();
      if fileSize > maxObjectSize {
        return Err(TooLarge);
      }
      var (partSize, partCount) := CalculateOptimalPartSize(rnd, minPartSize, fileSize);
      if uploadId.None? {
        return Err(InitiateFailed);
      }
      if partCount < 0 {
        return Err(NegativeCount);
      }
      var parts := PresignParts(partCount, presign);
      if parts.Err? {
        aborted := aborted + [uploadId.value];
        return Err(parts.error);
      }
      return Ok(UploadInfo(uploadId.value, parts.value.0, parts.value.1, partSize, PART_LIMIT, fileSize));
    }

    /** One URL and one number per part, up to the first part that cannot be signed. */
    method PresignParts(partCount: nat, presign: int -> Option<string>) returns (r: Result<(seq<string>, seq<int>)>)
      ensures r.Ok? ==>
        && |r.value.0| == |r.value.1| == partCount
        && forall i :: 0 <= i < partCount ==> r.value.1[i] == i + 1 && presign(i + 1) == Some(r.value.0[i])
      ensures r.Err? ==>
        && r.error.PresignFailed? && 1 <= r.error.part <= partCount && presign(r.error.part).None?
        && forall j :: 1 <= j < r.error.part ==> presign(j).Some?
    {
      var urls := new string[partCount];
      var numbers := new int[partCount];
      for i := 0 to partCount
        invariant forall j :: 0 <= j < i ==> numbers[j] == j + 1 && presign(j + 1) == Some(urls[j])
        invariant forall j :: 1 <= j <= i ==> presign(j).Some?
      {
        var url := presign(i + 1);
        if url.None? {
          return Err(PresignFailed(i + 1));
        }
        urls[i], numbers[i] := url.value, i + 1;
      }
      return Ok((urls[..], numbers[..]));
    }

    /** The request CompleteMultipartUpload sends, and whether the store took it. */
    method CompleteMultipartUpload(numbers: seq<int>, etags: seq<string>, store: seq<CompletePart> -> bool)
      returns (r: Result<seq<CompletePart>>)
      ensures (|numbers| == 0 || |etags| == 0) <==> r == Err(NoParts)
      ensures |numbers| != |etags| && |numbers| != 0 && |etags| != 0 <==> r == Err(Mismatch)
      ensures r == Err(NotConnected) ==> !connected
      ensures r.Ok? ==> connected && store(r.value)
      ensures r.Ok? ==> AscendingNumbers(r.value) && multiset(r.value) == multiset(Pairs(numbers, etags))
      ensures r == Err(StoreRejected) ==>
        |numbers| == |etags| && connected && exists sent ::
          !store(sent) && AscendingNumbers(sent) && multiset(sent) == multiset(Pairs(numbers, etags))
      ensures r.Err? ==> r.error in {NoParts, Mismatch, NotConnected, StoreRejected}
    {
      if |numbers| == 0 || |etags| == 0 {
        return Err(NoParts);
      }
      if |numbers| != |etags| {
        return Err(Mismatch);
      }
      var complete := SortedParts(numbers, etags);
      if !connected {
        return Err(NotConnected);
      }
      if !store(complete) {
        return Err(StoreRejected);
      }
      return Ok(complete);
    }

    /** Pair numbers with etags, sort by number, drop the index. */
    method SortedParts(numbers: seq<int>, etags: seq<string>) returns (r: seq<CompletePart>)
      requires |numbers| == |etags|
      ensures AscendingNumbers(r) && multiset(r) == multiset(Pairs(numbers, etags))
    {
      var parts := new PartInfo[|numbers|](_ => PartInfo(0, 0, ""));
      for i := 0 to |numbers|
        invariant forall j :: 0 <= j < i ==> parts[j] == PartInfo(j, numbers[j], etags[j])
      {
        parts[i] := PartInfo(i, numbers[i], etags[i]);
      }
      ghost var before := parts[..];
      assert StripAll(before) == Pairs(numbers, etags);
      SortInPlace(ByNumber, parts);
      StripPermutes(parts[..], before);
      r := ToComplete(parts);
      assert AscendingNumbers(r) by {
        assert Ordered(ByNumber, parts[..]);
      }
    }

    method ToComplete(parts: array<PartInfo>) returns (r: seq<CompletePart>)
      ensures r == StripAll(parts[..])
    {
      var complete := new CompletePart[parts.Length](_ => CompletePart(0, ""));
      for i := 0 to parts.Length
        invariant forall j :: 0 <= j < i ==> complete[j] == Strip(parts[j])
      {
        complete[i] := CompletePart(parts[i].partNumber, parts[i].etag);
      }
      return complete[..];
    }
  }

  lemma RemoveAt<T>(s: seq<T>, i: nat)
    requires i < |s|
    ensures multiset(s) == multiset(s[..i] + s[i + 1..]) + multiset{s[i]}
  {
    assert s == s[..i] + ([s[i]] + s[i + 1..]);
  }

  lemma PermutedTail<T>(a: seq<T>, b: seq<T>) returns (i: nat)
    requires multiset(a) == multiset(b) && a != []
    ensures i < |b| && b[i] == a[0] && multiset(a[1..]) == multiset(b[..i] + b[i + 1..])
  {
    assert a[0] in multiset(b);
    i :| i < |b| && b[i] == a[0];
    RemoveAt(a, 0);
    RemoveAt(b, i);
    assert a[..0] + a[1..] == a[1..];
    CancelOne(multiset(a[1..]), multiset(b[..i] + b[i + 1..]), a[0]);
  }

  lemma CancelOne<T>(x: multiset<T>, y: multiset<T>, e: T)
    requires x + multiset{e} == y + multiset{e}
    ensures x == y
  {
    assert x == x + multiset{e} - multiset{e} && y == y + multiset{e} - multiset{e};
  }

  lemma {:induction false} StripPermutes(a: seq<PartInfo>, b: seq<PartInfo>)
    requires multiset(a) == multiset(b)
    ensures multiset(StripAll(a)) == multiset(StripAll(b))
    decreases |a|
  {
    SameLength(a, b);
    if a != [] {
      var i := PermutedTail(a, b);
      StripPermutes(a[1..], b[..i] + b[i + 1..]);
      StripFirst(a);
      StripRemove(b, i);
    }
  }

  lemma SameLength<T>(a: seq<T>, b: seq<T>)
    requires multiset(a) == multiset(b)
    ensures |a| == |b|
  {
    assert |multiset(a)| == |a| && |multiset(b)| == |b|;
  }

  lemma StripFirst(s: seq<PartInfo>)
    requires s != []
    ensures multiset(StripAll(s)) == multiset(StripAll(s[1..])) + multiset{Strip(s[0])}
  {
    assert StripAll(s) == [Strip(s[0])] + StripAll(s[1..]);
  }

  lemma StripRemove(s: seq<PartInfo>, i: nat)
    requires i < |s|
    ensures multiset(StripAll(s)) == multiset(StripAll(s[..i] + s[i + 1..])) + multiset{Strip(s[i])}
  {
    var t := StripAll(s);
    RemoveAt(t, i);
    assert StripAll(s[..i] + s[i + 1..]) == t[..i] + t[i + 1..];
  }

  // ----- The store's side, and the whole trip

  datatype Part<+B> = Part(etag: string, data: seq<B>)

  /** An S3 upload in progress: the latest content of each part. */
  type Upload<+B> = map<int, Part<B>>

  /** What S3 makes of a completion request: the named parts concatenated, or a refusal when the part
      numbers do not ascend strictly, a part or its etag is unknown, or a part that is not the last
      has less than 5 MiB. */
  function Assemble<B>(up: Upload<B>, parts: seq<CompletePart>): Option<seq<B>>
    decreases |parts|
  {
    if parts == [] then Some([])
    else
      var front, last := parts[..|parts| - 1], parts[|parts| - 1];
      var before := Assemble(up, front);
      if before.None? || last.partNumber !in up || up[last.partNumber].etag != last.etag then None
      else if front != [] && (front[|front| - 1].partNumber >= last.partNumber
                              || |up[front[|front| - 1].partNumber].data| < MIN_PART_SIZE) then None
      else Some(before.value + up[last.partNumber].data)
  }

  /** Bytes up to the end of part k. */
  function End(size: nat, p: nat, k: nat): (e: nat)
    ensures e <= size
  {
    if k * p < size then k * p else size
  }

  lemma EndMonotone(size: nat, p: nat, k: nat)
    ensures End(size, p, k) <= End(size, p, k + 1)
  {
    assert (k + 1) * p == k * p + p;
  }

  type PartNumber = k: int | k >= 1 witness 1

  /** The bytes of part k. */
  function Slice<B>(file: seq<B>, p: nat, k: PartNumber): seq<B> {
    EndMonotone(|file|, p, k - 1);
    file[End(|file|, p, k - 1)..End(|file|, p, k)]
  }

  /** Uploading parts in the given order; a part may be uploaded again. */
  function UploadAll<B>(up: Upload<B>, file: seq<B>, p: nat, etag: int -> string, order: seq<PartNumber>): Upload<B>
    decreases |order|
  {
    if order == [] then up
    else UploadAll(up[order[0] := Part(etag(order[0]), Slice(file, p, order[0]))], file, p, etag, order[1..])
  }

  lemma {:induction false} UploadAllHas<B>(up: Upload<B>, file: seq<B>, p: nat, etag: int -> string,
      order: seq<PartNumber>, k: PartNumber)
    requires k in order || (k in up && up[k] == Part(etag(k), Slice(file, p, k)))
    ensures k in UploadAll(up, file, p, etag, order)
    ensures UploadAll(up, file, p, etag, order)[k] == Part(etag(k), Slice(file, p, k))
    decreases |order|
  {
    if order != [] {
      UploadAllHas(up[order[0] := Part(etag(order[0]), Slice(file, p, order[0]))], file, p, etag, order[1..], k);
    }
  }

  /** Parts 1..n in order with their etags. */
  function InOrder(n: nat, etag: int -> string): (r: seq<CompletePart>)
    ensures |r| == n && forall i :: 0 <= i < n ==> r[i] == CompletePart(i + 1, etag(i + 1))
  {
    seq(n, i => CompletePart(i + 1, etag(i + 1)))
  }

  lemma SliceAppends<B>(file: seq<B>, p: nat, k: PartNumber)
    ensures file[..End(|file|, p, k)] == file[..End(|file|, p, k - 1)] + Slice(file, p, k)
  {
    EndMonotone(|file|, p, k - 1);
  }

  /** The first k parts assemble to the first k part lengths of the file. */
  lemma {:induction false} AssemblePrefix<B>(up: Upload<B>, file: seq<B>, p: nat, etag: int -> string, n: nat, k: nat)
    requires k <= n && (p >= MIN_PART_SIZE || n <= 1) && (n > 0 ==> (n - 1) * p < |file|)
    requires forall j :: 1 <= j <= n ==> j in up && up[j] == Part(etag(j), Slice(file, p, j))
    ensures Assemble(up, InOrder(k, etag)) == Some(file[..End(|file|, p, k)])
  {
    if k > 0 {
      AssemblePrefix(up, file, p, etag, n, k - 1);
      var parts := InOrder(k, etag);
      assert parts[..k - 1] == InOrder(k - 1, etag);
      SliceAppends(file, p, k);
      if k > 1 {
        FullPart(|file|, p, n, k - 1);
        assert |up[k - 1].data| == p;
      }
    } else {
      assert file[..End(|file|, p, 0)] == [];
    }
  }

  /** Parts below 5 MiB are refused as soon as there are two. */
  lemma {:induction false} SmallPartsRefused<B>(up: Upload<B>, file: seq<B>, p: nat, etag: int -> string,
      n: nat, k: nat)
    requires 2 <= k <= n && p < MIN_PART_SIZE && (n - 1) * p < |file|
    requires 1 in up && up[1] == Part(etag(1), Slice(file, p, 1))
    ensures Assemble(up, InOrder(k, etag)) == None
  {
    var parts := InOrder(k, etag);
    assert parts[..k - 1] == InOrder(k - 1, etag);
    if k == 2 {
      FullPart(|file|, p, n, 1);
      assert |up[1].data| == p;
    } else {
      SmallPartsRefused(up, file, p, etag, n, k - 1);
    }
  }

  lemma FullPart(size: nat, p: nat, n: nat, k: nat)
    requires 1 <= k < n && (n - 1) * p < size
    ensures End(size, p, k) - End(size, p, k - 1) == p
  {
    assert k * p <= (n - 1) * p;
    assert (k - 1) * p + p == k * p;
  }

  predicate CompleteByNumber(a: CompletePart, b: CompletePart) { a.partNumber < b.partNumber }

  /** The request lists 1..n whatever the order of the caller's pairs. */
  lemma RequestInOrder(n: nat, etag: int -> string, request: seq<CompletePart>)
    requires AscendingNumbers(request) && multiset(request) == multiset(InOrder(n, etag))
    ensures request == InOrder(n, etag)
  {
    AscendingDistinct(CompleteByNumber, InOrder(n, etag));
    OrderedUnique(CompleteByNumber, InOrder(n, etag), request);
  }

  /** What a caller can check before planning: no configured minimum, or one that S3 accepts, or a file
      of one part, or one so large that its parts are whole MiB from five up. */
  predicate Assembles(configured: nat, size: nat) {
    || configured == 0 || configured >= MIN_PART_SIZE
    || size <= configured || size > 40000 * MIB
    || 10 * configured <= size <= MIB
  }

  lemma LargeParts(size: nat)
    ensures WholeMiB(CeilDiv(size, PART_LIMIT)) >= MIN_PART_SIZE <==> size > 40000 * MIB
    ensures size <= MIB ==> WholeMiB(CeilDiv(size, PART_LIMIT)) == if size == 0 then 0 else MIB
    ensures MIB < size <= 40000 * MIB ==> WholeMiB(CeilDiv(size, PART_LIMIT)) < size
  {
    PartsSuffice(size, PART_LIMIT, 4 * MIB);
    PartsSuffice(size, PART_LIMIT, MIB);
    PartsSuffice(size, PART_LIMIT, 0);
  }

  /** That is when the planned parts are large enough for S3, or one is enough. */
  lemma AssemblesByPlan(configured: nat, size: nat)
    requires size >= 1
    ensures
      var p := PartSize(MinPartSize(configured), size);
      p >= MIN_PART_SIZE || size <= p <==> Assembles(configured, size)
  {
    LargeParts(size);
  }

  /** Parts 1..n of size p, uploaded in any order and completed with any permutation of the (part number,
      etag) pairs: the store assembles the file exactly when the parts are large enough for S3, or one is
      enough, and they reach the end of the file. */
  lemma {:induction false} PartsAssemble<B>(p: nat, n: nat, file: seq<B>, etag: int -> string, order: seq<PartNumber>,
      request: seq<CompletePart>)
    requires 1 <= n && (n - 1) * p < |file| && request == InOrder(n, etag)
    requires forall k :: k in order <==> 1 <= k <= n
    ensures Assemble(UploadAll(map[], file, p, etag, order), request) == Some(file)
       <==> (p >= MIN_PART_SIZE || n == 1) && n * p >= |file|
  {
    var up := UploadAll(map[], file, p, etag, order);
    forall j | 1 <= j <= n ensures j in up && up[j] == Part(etag(j), Slice(file, p, j)) {
      UploadAllHas(map[], file, p, etag, order, j);
    }
    if p >= MIN_PART_SIZE || n == 1 {
      AssemblePrefix(up, file, p, etag, n, n);
      assert file[..|file|] == file;
    } else {
      SmallPartsRefused(up, file, p, etag, n, n);
    }
  }

  /** The end-to-end theorem, on the plan the code computes. For every file an int64 size can have: splitting
      it by the plan, uploading the parts in any order, and completing with any permutation of the (part
      number, etag) pairs assembles the file, byte for byte, exactly when configuration and size allow it
      (`Assembles`) and float64 does not take bytes off the plan (`Shortened`). */
  lemma {:induction false} UploadAssembles<B>(rnd: real -> real, configured: nat, file: seq<B>, etag: int -> string,
      order: seq<PartNumber>, numbers: seq<int>, etags: seq<string>, request: seq<CompletePart>)
    requires Understood(rnd, configured, |file|) && 1 <= |file|
    requires forall k :: k in order <==> 1 <= k <= PlannedParts(rnd, configured, |file|)
    requires |numbers| == |etags|
    requires multiset(Pairs(numbers, etags)) == multiset(InOrder(PlannedParts(rnd, configured, |file|), etag))
    requires AscendingNumbers(request) && multiset(request) == multiset(Pairs(numbers, etags))
    ensures
      var (p, n) := CalculateOptimalPartSize(rnd, configured, |file|);
      && 1 <= n <= PART_LIMIT && request == InOrder(n, etag)
      && (Assemble(UploadAll(map[], file, p, etag, order), request) == Some(file)
          <==> Assembles(configured, |file|) && !Shortened(rnd, configured, |file|))
  {
    var (p, n) := CalculateOptimalPartSize(rnd, configured, |file|);
    CodePlan(rnd, configured, |file|);
    RequestInOrder(n, etag, request);
    PartsAssemble(p, n, file, etag, order, request);
    AssemblesByCode(rnd, configured, |file|);
  }

  /** `Assembles`, on the code's plan. */
  lemma AssemblesByCode(rnd: real -> real, configured: nat, size: nat)
    requires Understood(rnd, configured, size) && size >= 1
    ensures
      var (p, n) := CalculateOptimalPartSize(rnd, configured, size);
      p >= MIN_PART_SIZE || n == 1 <==> Assembles(configured, size)
  {
    if size < EXACT {
      AssemblesByPlan(configured, size);
      var p := PartSize(MinPartSize(configured), size);
      PartsSuffice(size, p, 1);
      PartsSuffice(size, p, 0);
    } else {
      PlanOfRounded(rnd, configured, size);
      WholeBound(rnd, size);
    }
  }

  /** The store never assembles a request that repeats a part number: distinct numbers are needed. */
  lemma {:induction false} AssembledAreDistinct<B>(up: Upload<B>, parts: seq<CompletePart>)
    requires Assemble(up, parts).Some?
    ensures forall i, j :: 0 <= i < j < |parts| ==> parts[i].partNumber < parts[j].partNumber
    decreases |parts|
  {
    if parts != [] {
      AssembledAreDistinct(up, parts[..|parts| - 1]);
    }
  }
}
