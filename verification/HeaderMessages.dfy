/**
 * The wire messages of p2p/pb/header_request.pb.go: printed back to front into a buffer of exactly
 * Size() bytes, and parsed field by field.
 */
module HeaderMessages {
  import opened Headers
  import opened Varint

  const MAX_INT: nat := TWO_63 - 1

  /** The oneof of a request. `NilHash` is the hash variant holding a nil slice. */
  datatype Data = NoData | Origin(origin: nat) | HashData(hash: seq<byte>) | NilHash

  datatype Request = Request(data: Data, amount: nat)

  /** The status code is an int32; the known ones are 0, 1 and 2. */
  datatype Response = Response(body: seq<byte>, statusCode: int)

  datatype Result<+T> = Ok(value: T) | Err(err: Error)

  predicate ValidRequest(m: Request) {
    && m.amount < TWO_64
    && (m.data.Origin? ==> m.data.origin < TWO_64)
    && (m.data.HashData? ==> |m.data.hash| <= MAX_INT)
  }

  predicate ValidResponse(m: Response) {
    |m.body| <= MAX_INT && -0x8000_0000 <= m.statusCode < 0x8000_0000
  }

  /** Go's conversions of a uint64 to int64, int and int32. */
  function ToInt64(v: nat): int
    requires v < TWO_64
  {
    if v < TWO_63 then v else v - TWO_64
  }

  function ToInt32(v: nat): int {
    var low := v % 0x1_0000_0000;
    if low < 0x8000_0000 then low else low - 0x1_0000_0000
  }

  function ToUint64(i: int): nat
    requires -TWO_63 <= i < TWO_63
  {
    if i < 0 then i + TWO_64 else i
  }

  // ---------------------------------------------------------------- encoding

  function DataBytes(d: Data): seq<byte> {
    match d
    case NoData => []
    case Origin(v) => [0x8] + Bytes(v)
    case HashData(hash) => [0x12] + Bytes(|hash|) + hash
    case NilHash => []
  }

  function AmountBytes(amount: nat): seq<byte> {
    if amount == 0 then [] else [0x18] + Bytes(amount)
  }

  function RequestBytes(m: Request): seq<byte> {
    DataBytes(m.data) + AmountBytes(m.amount)
  }

  function BodyBytes(body: seq<byte>): seq<byte> {
    if body == [] then [] else [0xa] + Bytes(|body|) + body
  }

  function StatusBytes(code: int): seq<byte>
    requires -TWO_63 <= code < TWO_63
  {
    if code == 0 then [] else [0x10] + Bytes(ToUint64(code))
  }

  function ResponseBytes(m: Response): seq<byte>
    requires ValidResponse(m)
  {
    BodyBytes(m.body) + StatusBytes(m.statusCode)
  }

  function DataSize(d: Data): nat {
    match d
    case NoData => 0
    case Origin(v) => 1 + Sov(v)
    case HashData(hash) => 1 + |hash| + Sov(|hash|)
    case NilHash => 0
  }

  function RequestSize(m: Request): (n: nat)
    ensures n == |RequestBytes(m)|
  {
    BytesTakeSov(m.amount);
    if m.data.Origin? then BytesTakeSov(m.data.origin);
      DataSize(m.data) + if m.amount != 0 then 1 + Sov(m.amount) else 0
    else if m.data.HashData? then BytesTakeSov(|m.data.hash|);
      DataSize(m.data) + if m.amount != 0 then 1 + Sov(m.amount) else 0
    else DataSize(m.data) + if m.amount != 0 then 1 + Sov(m.amount) else 0
  }

  function ResponseSize(m: Response): (n: nat)
    requires ValidResponse(m)
    ensures n == |ResponseBytes(m)|
  {
    BytesTakeSov(|m.body|);
    BytesTakeSov(ToUint64(m.statusCode));
    (if |m.body| > 0 then 1 + |m.body| + Sov(|m.body|) else 0)
    + if m.statusCode != 0 then 1 + Sov(ToUint64(m.statusCode)) else 0
  }

  /** Writes a tag and a varint so that they end just before `end`. */
  method PutVarintField(a: array<byte>, end: nat, tag: byte, v: nat) returns (i: nat)
    requires 1 + Sov(v) <= end <= a.Length
    modifies a
    ensures i + 1 + Sov(v) == end && a[i..end] == [tag] + Bytes(v)
    ensures a[..i] == old(a[..i]) && a[end..] == old(a[end..])
  {
    i := EncodeVarint(a, end, v);
    i := i - 1;
    a[i] := tag;
    assert a[i..end] == [tag] + a[i + 1..end];
  }

  /** Writes a tag, a length and the bytes so that they end just before `end`. */
  method PutBytesField(a: array<byte>, end: nat, tag: byte, bytes: seq<byte>) returns (i: nat)
    requires 1 + |bytes| + Sov(|bytes|) <= end <= a.Length
    modifies a
    ensures i + 1 + |bytes| + Sov(|bytes|) == end && a[i..end] == [tag] + Bytes(|bytes|) + bytes
    ensures a[..i] == old(a[..i]) && a[end..] == old(a[end..])
  {
    var start := end - |bytes|;
    forall k | 0 <= k < |bytes| {
      a[start + k] := bytes[k];
    }
    ghost var tail := a[start..];
    assert tail[..|bytes|] == bytes;
    assert a[end..] == tail[|bytes|..] == old(a[end..]);
    assert a[..start] == old(a[..start]);
    ghost var head := a[..start];
    i := PutVarintField(a, start, tag, |bytes|);
    assert a[start..] == tail;
    assert a[start..end] == a[start..][..|bytes|] == bytes;
    assert a[i..end] == a[i..start] + a[start..end];
    assert a[end..] == a[start..][|bytes|..];
    assert a[..i] == head[..i];
  }

  /** Marshal fills its buffer exactly, back to front. */
  method MarshalRequest(m: Request) returns (a: array<byte>)
    ensures fresh(a) && a[..] == RequestBytes(m) && a.Length == RequestSize(m)
  {
    a := new byte[RequestSize(m)];
    var i := a.Length;
    DataTakesSize(m.data);
    BytesTakeSov(m.amount);
    if m.amount != 0 {
      i := PutVarintField(a, i, 0x18, m.amount);
    }
    assert a[i..] == AmountBytes(m.amount);
    ghost var end := i;
    match m.data {
      case Origin(v) => i := PutVarintField(a, i, 0x8, v);
      case HashData(hash) => i := PutBytesField(a, i, 0x12, hash);
      case _ =>
    }
    assert i == 0 && a[..] == a[..end] + a[end..];
  }

  lemma DataTakesSize(d: Data)
    ensures |DataBytes(d)| == DataSize(d)
  {
    match d
    case Origin(v) => BytesTakeSov(v);
    case HashData(hash) => BytesTakeSov(|hash|);
    case _ =>
  }

  method MarshalResponse(m: Response) returns (a: array<byte>)
    requires ValidResponse(m)
    ensures fresh(a) && a[..] == ResponseBytes(m) && a.Length == ResponseSize(m)
  {
    a := new byte[ResponseSize(m)];
    var i := a.Length;
    BytesTakeSov(|m.body|);
    BytesTakeSov(ToUint64(m.statusCode));
    if m.statusCode != 0 {
      i := PutVarintField(a, i, 0x10, ToUint64(m.statusCode));
    }
    assert a[i..] == StatusBytes(m.statusCode);
    ghost var end := i;
    if |m.body| > 0 {
      i := PutBytesField(a, i, 0xa, m.body);
    }
    assert i == 0 && a[..] == a[..end] + a[end..];
  }

  // ---------------------------------------------------------------- decoding

  datatype Key = Key(field: int, wire: nat)

  /** The tag of a field: int32(wire >> 3) and the low three bits. */
  function ReadKey(data: seq<byte>, i: nat): (r: Read<Key>)
    ensures r.Got? ==> i < r.next <= |data| && r.value.field > 0
  {
    match Decode(data, i)
    case Fail(err) => Fail(err)
    case Got(v, next) =>
      if v % 8 == 4 then Fail(EndGroup)
      else if ToInt32(v / 8) <= 0 then Fail(IllegalTag)
      else Got(Key(ToInt32(v / 8), v % 8), next)
  }

  /** A length and that many bytes. The length and the end index are Go ints, which may wrap below zero. */
  function ReadBytes(data: seq<byte>, i: nat): (r: Read<seq<byte>>)
    ensures r.Got? ==> i < r.next <= |data| && |r.value| <= r.next
  {
    match Decode(data, i)
    case Fail(err) => Fail(err)
    case Got(v, next) =>
      var n := ToInt64(v);
      if n < 0 || next + n > MAX_INT then Fail(InvalidLength)
      else if next + n > |data| then Fail(UnexpectedEOF)
      else Got(data[next..next + n], next + n)
  }

  method ReadByteSlice(data: seq<byte>, i: nat) returns (r: Read<seq<byte>>)
    ensures r == ReadBytes(data, i)
  {
    var n := ReadVarint(data, i);
    if n.Fail? { return Fail(n.err); }
    var byteLen := ToInt64(n.value);
    var postIndex := n.next + byteLen;
    if byteLen < 0 || postIndex > MAX_INT { return Fail(InvalidLength); }
    if postIndex > |data| { return Fail(UnexpectedEOF); }
    return Got(data[n.next..postIndex], postIndex);
  }

  /** One tag, and the value of a field that is skipped: the index behind it and the groups then open. */
  function SkipOne(data: seq<byte>, i: nat, depth: nat): (r: Read<nat>)
    ensures r.Got? ==> i < r.next <= MAX_INT
  {
    match Decode(data, i)
    case Fail(err) => Fail(err)
    case Got(key, j) =>
      var wire := key % 8;
      if wire == 4 && depth == 0 then Fail(UnexpectedEndOfGroup)
      else if wire > 5 then Fail(IllegalWireType)
      else
        var value := if wire == 0 || wire == 2 then Decode(data, j) else Got(0, j);
        if value.Fail? then Fail(value.err)
        else if wire == 2 && ToInt64(value.value) < 0 then Fail(InvalidLength)
        else
          var k := value.next + if wire == 1 then 8 else if wire == 5 then 4 else if wire == 2 then value.value else 0;
          var depth' := if wire == 3 then depth + 1 else if wire == 4 then depth - 1 else depth;
          if k > MAX_INT then Fail(InvalidLength) else Got(depth', k)
  }

  /** skipHeaderRequest from index i with `depth` groups open. The index it ends at may be past the buffer. */
  function SkipFrom(data: seq<byte>, i: nat, depth: nat): (r: Read<()>)
    ensures r.Got? ==> i < r.next <= MAX_INT
    decreases |data| - i
  {
    if i >= |data| then Fail(UnexpectedEOF)
    else
      match SkipOne(data, i, depth)
      case Fail(err) => Fail(err)
      case Got(open, k) => if open == 0 then Got((), k) else SkipFrom(data, k, open)
  }

  method SkipHeaderRequest(data: seq<byte>) returns (r: Read<()>)
    ensures r == SkipFrom(data, 0, 0)
  {
    var i, depth: nat := 0, 0;
    while i < |data|
      invariant SkipFrom(data, i, depth) == SkipFrom(data, 0, 0)
      decreases |data| - i
    {
      var key := ReadVarint(data, i);
      if key.Fail? {
        return Fail(key.err);
      }
      var k, open := key.next, depth;
      match key.value % 8 {
        case 0 =>
          var v := ReadVarint(data, k);
          if v.Fail? { return Fail(v.err); }
          k := v.next;
        case 1 => k := k + 8;
        case 2 =>
          var v := ReadVarint(data, k);
          if v.Fail? { return Fail(v.err); }
          if ToInt64(v.value) < 0 { return Fail(InvalidLength); }
          k := v.next + v.value;
        case 3 => open := depth + 1;
        case 4 =>
          if depth == 0 { return Fail(UnexpectedEndOfGroup); }
          open := depth - 1;
        case 5 => k := k + 4;
        case _ => return Fail(IllegalWireType);
      }
      if k > MAX_INT {
        return Fail(InvalidLength);
      }
      if open == 0 {
        return Got((), k);
      }
      i, depth := k, open;
    }
    return Fail(UnexpectedEOF);
  }

  /** The default branch of Unmarshal: skip the unknown field that starts at i. */
  function Skip(data: seq<byte>, i: nat): (r: Read<()>)
    requires i <= |data|
    ensures r.Got? ==> i < r.next <= |data|
  {
    match SkipFrom(data[i..], 0, 0)
    case Fail(err) => Fail(err)
    case Got(_, n) =>
      if i + n > MAX_INT then Fail(InvalidLength)
      else if i + n > |data| then Fail(UnexpectedEOF)
      else Got((), i + n)
  }

  /** One field of a request, added to what was parsed before it. */
  function RequestField(data: seq<byte>, i: nat, m: Request): (r: Read<Request>)
    requires i <= |data|
    ensures r.Got? ==> i < r.next <= |data|
  {
    match ReadKey(data, i)
    case Fail(err) => Fail(err)
    case Got(key, j) =>
      if key.field == 1 then
        if key.wire != 0 then Fail(WrongWireType)
        else match Decode(data, j) case Fail(err) => Fail(err) case Got(v, k) => Got(m.(data := Origin(v)), k)
      else if key.field == 2 then
        if key.wire != 2 then Fail(WrongWireType)
        else match ReadBytes(data, j) case Fail(err) => Fail(err) case Got(hash, k) => Got(m.(data := HashData(hash)), k)
      else if key.field == 3 then
        if key.wire != 0 then Fail(WrongWireType)
        else match Decode(data, j) case Fail(err) => Fail(err) case Got(v, k) => Got(m.(amount := v), k)
      else
        match Skip(data, i) case Fail(err) => Fail(err) case Got(_, k) => Got(m, k)
  }

  /** Total on every byte string: each field is read within the buffer and ends behind where it began. */
  function ParseRequest(data: seq<byte>, i: nat, m: Request): Result<Request>
    requires i <= |data|
    decreases |data| - i
  {
    if i == |data| then Ok(m)
    else
      match RequestField(data, i, m)
      case Fail(err) => Err(err)
      case Got(m', k) => ParseRequest(data, k, m')
  }

  const NO_REQUEST := Request(NoData, 0)

  /** The skipping of an unknown field in the default branch of Unmarshal. */
  method SkipUnknown(data: seq<byte>, i: nat) returns (r: Read<()>)
    requires i <= |data|
    ensures r == Skip(data, i)
  {
    var skippy := SkipHeaderRequest(data[i..]);
    if skippy.Fail? { return Fail(skippy.err); }
    if i + skippy.next > MAX_INT { return Fail(InvalidLength); }
    if i + skippy.next > |data| { return Fail(UnexpectedEOF); }
    return Got((), i + skippy.next);
  }

  /** The tag that opens a field. */
  method ReadTag(data: seq<byte>, i: nat) returns (r: Read<Key>)
    ensures r == ReadKey(data, i)
  {
    var key := ReadVarint(data, i);
    if key.Fail? { return Fail(key.err); }
    var fieldNum, wireType := ToInt32(key.value / 8), key.value % 8;
    if wireType == 4 { return Fail(EndGroup); }
    if fieldNum <= 0 { return Fail(IllegalTag); }
    return Got(Key(fieldNum, wireType), key.next);
  }

  /** One turn of the loop of Unmarshal. */
  method UnmarshalRequestField(data: seq<byte>, i: nat, m: Request) returns (r: Read<Request>)
    requires i <= |data|
    ensures r == RequestField(data, i, m)
  {
    var tag := ReadTag(data, i);
    if tag.Fail? { return Fail(tag.err); }
    var key := tag.value;
    if key.field == 1 {
      if key.wire != 0 { return Fail(WrongWireType); }
      var v := ReadVarint(data, tag.next);
      return if v.Fail? then Fail(v.err) else Got(m.(data := Origin(v.value)), v.next);
    } else if key.field == 2 {
      if key.wire != 2 { return Fail(WrongWireType); }
      var v := ReadByteSlice(data, tag.next);
      return if v.Fail? then Fail(v.err) else Got(m.(data := HashData(v.value)), v.next);
    } else if key.field == 3 {
      if key.wire != 0 { return Fail(WrongWireType); }
      var v := ReadVarint(data, tag.next);
      return if v.Fail? then Fail(v.err) else Got(m.(amount := v.value), v.next);
    } else {
      var skipped := SkipUnknown(data, i);
      return if skipped.Fail? then Fail(skipped.err) else Got(m, skipped.next);
    }
  }

  method UnmarshalRequest(data: seq<byte>) returns (r: Result<Request>)
    ensures r == ParseRequest(data, 0, NO_REQUEST)
  {
    var i, m := 0, NO_REQUEST;
    while i < |data|
      invariant 0 <= i <= |data| && ParseRequest(data, i, m) == ParseRequest(data, 0, NO_REQUEST)
      decreases |data| - i
    {
      var field := UnmarshalRequestField(data, i, m);
      if field.Fail? {
        return Err(field.err);
      }
      m, i := field.value, field.next;
    }
    return Ok(m);
  }

  function ResponseField(data: seq<byte>, i: nat, m: Response): (r: Read<Response>)
    requires i <= |data|
    ensures r.Got? ==> i < r.next <= |data|
  {
    match ReadKey(data, i)
    case Fail(err) => Fail(err)
    case Got(key, j) =>
      if key.field == 1 then
        if key.wire != 2 then Fail(WrongWireType)
        else match ReadBytes(data, j) case Fail(err) => Fail(err) case Got(body, k) => Got(m.(body := body), k)
      else if key.field == 2 then
        if key.wire != 0 then Fail(WrongWireType)
        else match Decode(data, j) case Fail(err) => Fail(err) case Got(v, k) => Got(m.(statusCode := ToInt32(v)), k)
      else
        match Skip(data, i) case Fail(err) => Fail(err) case Got(_, k) => Got(m, k)
  }

  function ParseResponse(data: seq<byte>, i: nat, m: Response): Result<Response>
    requires i <= |data|
    decreases |data| - i
  {
    if i == |data| then Ok(m)
    else
      match ResponseField(data, i, m)
      case Fail(err) => Err(err)
      case Got(m', k) => ParseResponse(data, k, m')
  }

  const NO_RESPONSE := Response([], 0)

  method UnmarshalResponseField(data: seq<byte>, i: nat, m: Response) returns (r: Read<Response>)
    requires i <= |data|
    ensures r == ResponseField(data, i, m)
  {
    var tag := ReadTag(data, i);
    if tag.Fail? { return Fail(tag.err); }
    var key := tag.value;
    if key.field == 1 {
      if key.wire != 2 { return Fail(WrongWireType); }
      var v := ReadByteSlice(data, tag.next);
      return if v.Fail? then Fail(v.err) else Got(m.(body := v.value), v.next);
    } else if key.field == 2 {
      if key.wire != 0 { return Fail(WrongWireType); }
      var v := ReadVarint(data, tag.next);
      return if v.Fail? then Fail(v.err) else Got(m.(statusCode := ToInt32(v.value)), v.next);
    } else {
      var skipped := SkipUnknown(data, i);
      return if skipped.Fail? then Fail(skipped.err) else Got(m, skipped.next);
    }
  }

  method UnmarshalResponse(data: seq<byte>) returns (r: Result<Response>)
    ensures r == ParseResponse(data, 0, NO_RESPONSE)
  {
    var i, m := 0, NO_RESPONSE;
    while i < |data|
      invariant 0 <= i <= |data| && ParseResponse(data, i, m) == ParseResponse(data, 0, NO_RESPONSE)
      decreases |data| - i
    {
      var field := UnmarshalResponseField(data, i, m);
      if field.Fail? {
        return Err(field.err);
      }
      m, i := field.value, field.next;
    }
    return Ok(m);
  }

  // ---------------------------------------------------------------- round trips

  lemma OneByteRoundTrip(pre: seq<byte>, tag: byte, post: seq<byte>)
    requires tag < 128
    ensures Decode(pre + [tag] + post, |pre|) == Got(tag, |pre| + 1)
  {
    assert Bytes(tag) == [tag];
    VarintRoundTrip(pre, tag, post);
    SovStep(tag);
  }

  /** What readKey makes of a decoded tag of one byte. */
  lemma KeyOfTag(data: seq<byte>, i: nat, tag: nat, next: nat)
    requires Decode(data, i) == Got(tag, next) && 8 <= tag < 128 && tag % 8 != 4
    ensures ReadKey(data, i) == Got(Key(tag / 8, tag % 8), next)
  {
    assert 1 <= tag / 8 < 16;
  }

  lemma KeyRoundTrip(pre: seq<byte>, tag: byte, post: seq<byte>)
    requires 8 <= tag < 128 && tag % 8 != 4
    ensures ReadKey(pre + [tag] + post, |pre|) == Got(Key(tag / 8, tag % 8), |pre| + 1)
  {
    OneByteRoundTrip(pre, tag, post);
    KeyOfTag(pre + [tag] + post, |pre|, tag, |pre| + 1);
  }

  /** A varint field, read back from wherever it stands. */
  lemma VarintFieldRoundTrip(pre: seq<byte>, tag: byte, v: nat, post: seq<byte>)
    requires 8 <= tag < 128 && tag % 8 != 4 && v < TWO_64
    ensures var data := pre + ([tag] + Bytes(v)) + post;
            && ReadKey(data, |pre|) == Got(Key(tag / 8, tag % 8), |pre| + 1)
            && Decode(data, |pre| + 1) == Got(v, |pre| + |[tag] + Bytes(v)|)
  {
    var data := pre + ([tag] + Bytes(v)) + post;
    assert data == pre + [tag] + (Bytes(v) + post) == (pre + [tag]) + Bytes(v) + post;
    KeyRoundTrip(pre, tag, Bytes(v) + post);
    VarintRoundTrip(pre + [tag], v, post);
    BytesTakeSov(v);
  }

  lemma BytesFieldRoundTrip(pre: seq<byte>, tag: byte, bytes: seq<byte>, post: seq<byte>)
    requires 8 <= tag < 128 && tag % 8 != 4
    requires var data := pre + ([tag] + Bytes(|bytes|) + bytes) + post; |data| <= MAX_INT
    ensures var data := pre + ([tag] + Bytes(|bytes|) + bytes) + post;
            && ReadKey(data, |pre|) == Got(Key(tag / 8, tag % 8), |pre| + 1)
            && ReadBytes(data, |pre| + 1) == Got(bytes, |pre| + |[tag] + Bytes(|bytes|) + bytes|)
  {
    var data := pre + ([tag] + Bytes(|bytes|) + bytes) + post;
    assert data == pre + ([tag] + Bytes(|bytes|)) + (bytes + post);
    VarintFieldRoundTrip(pre, tag, |bytes|, bytes + post);
    var next := |pre| + 1 + |Bytes(|bytes|)|;
    assert data[next..next + |bytes|] == bytes;
  }

  /** What the oneof of a request decodes to: a nil hash leaves no trace on the wire. */
  function Decoded(d: Data): Data {
    if d.NilHash? then NoData else d
  }

  lemma AmountRoundTrip(pre: seq<byte>, d: Data, amount: nat)
    requires amount < TWO_64
    ensures ParseRequest(pre + AmountBytes(amount), |pre|, Request(d, 0)) == Ok(Request(d, amount))
  {
    var data := pre + AmountBytes(amount);
    if amount == 0 {
      assert data == pre;
    } else {
      VarintFieldRoundTrip(pre, 0x18, amount, []);
      assert data == pre + ([0x18] + Bytes(amount)) + [];
      LastRequestField(data, |pre|, Request(d, 0), Request(d, amount));
    }
  }

  lemma LastRequestField(data: seq<byte>, i: nat, m: Request, last: Request)
    requires i < |data| && RequestField(data, i, m) == Got(last, |data|)
    ensures ParseRequest(data, i, m) == Ok(last)
  {
  }

  lemma LastResponseField(data: seq<byte>, i: nat, m: Response, last: Response)
    requires i < |data| && ResponseField(data, i, m) == Got(last, |data|)
    ensures ParseResponse(data, i, m) == Ok(last)
  {
  }

  lemma DataRoundTrip(d: Data, post: seq<byte>)
    requires ValidRequest(Request(d, 0)) && |DataBytes(d) + post| <= MAX_INT && (d.Origin? || d.HashData?)
    ensures RequestField(DataBytes(d) + post, 0, NO_REQUEST) == Got(Request(d, 0), |DataBytes(d)|)
  {
    if d.Origin? {
      OriginField(d.origin, post);
    } else {
      HashField(d.hash, post);
    }
  }

  lemma OriginField(origin: nat, post: seq<byte>)
    requires origin < TWO_64
    ensures var front := [0x8] + Bytes(origin);
            RequestField(front + post, 0, NO_REQUEST) == Got(Request(Origin(origin), 0), |front|)
  {
    var front := [0x8] + Bytes(origin);
    assert [] + front + post == front + post;
    VarintFieldRoundTrip([], 0x8, origin, post);
  }

  lemma HashField(hash: seq<byte>, post: seq<byte>)
    requires |[0x12] + Bytes(|hash|) + hash + post| <= MAX_INT
    ensures var front := [0x12] + Bytes(|hash|) + hash;
            RequestField(front + post, 0, NO_REQUEST) == Got(Request(HashData(hash), 0), |front|)
  {
    var front := [0x12] + Bytes(|hash|) + hash;
    assert [] + front + post == front + post;
    BytesFieldRoundTrip([], 0x12, hash, post);
  }

  /** Decoding an encoded request gives the request back, up to a nil hash. */
  lemma RequestDecodes(m: Request)
    requires ValidRequest(m) && |RequestBytes(m)| <= MAX_INT
    ensures ParseRequest(RequestBytes(m), 0, NO_REQUEST) == Ok(Request(Decoded(m.data), m.amount))
  {
    AmountRoundTrip(DataBytes(m.data), Decoded(m.data), m.amount);
    if m.data.Origin? || m.data.HashData? {
      DataRoundTrip(m.data, AmountBytes(m.amount));
    }
  }

  /** The round trip of requests holds exactly for those whose hash variant is not nil. */
  lemma RequestRoundTrip(m: Request)
    requires ValidRequest(m) && |RequestBytes(m)| <= MAX_INT
    ensures ParseRequest(RequestBytes(m), 0, NO_REQUEST) == Ok(m) <==> !m.data.NilHash?
  {
    RequestDecodes(m);
  }

  /** A negative status code is sent as ten bytes, and its low 32 bits come back as the same int32. */
  lemma StatusWraps(code: int)
    requires -0x8000_0000 <= code < 0x8000_0000
    ensures ToInt32(ToUint64(code)) == code
  {
    if code < 0 {
      var low := code + 0x1_0000_0000;
      assert ToUint64(code) == low + 0xFFFF_FFFF * 0x1_0000_0000;
      assert ToUint64(code) % 0x1_0000_0000 == low;
    }
  }

  lemma StatusRoundTrip(pre: seq<byte>, body: seq<byte>, code: int)
    requires -0x8000_0000 <= code < 0x8000_0000
    ensures ParseResponse(pre + StatusBytes(code), |pre|, Response(body, 0)) == Ok(Response(body, code))
  {
    if code == 0 {
      assert pre + StatusBytes(code) == pre;
    } else {
      var v := ToUint64(code);
      StatusWraps(code);
      StatusField(pre, v, body);
      LastResponseField(pre + StatusBytes(code), |pre|, Response(body, 0), Response(body, code));
    }
  }

  lemma StatusField(pre: seq<byte>, v: nat, body: seq<byte>)
    requires v < TWO_64
    ensures var data := pre + ([0x10] + Bytes(v));
            ResponseField(data, |pre|, Response(body, 0)) == Got(Response(body, ToInt32(v)), |data|)
  {
    VarintFieldRoundTrip(pre, 0x10, v, []);
    assert pre + ([0x10] + Bytes(v)) + [] == pre + ([0x10] + Bytes(v));
  }

  /** The round trip of responses, for every int32 status code. */
  lemma ResponseRoundTrip(m: Response)
    requires ValidResponse(m) && |ResponseBytes(m)| <= MAX_INT
    ensures ParseResponse(ResponseBytes(m), 0, NO_RESPONSE) == Ok(m)
  {
    var front, back := BodyBytes(m.body), StatusBytes(m.statusCode);
    var data := front + back;
    StatusRoundTrip(front, m.body, m.statusCode);
    if m.body != [] {
      assert data == [] + ([0xa] + Bytes(|m.body|) + m.body) + back;
      BytesFieldRoundTrip([], 0xa, m.body, back);
      assert ResponseField(data, 0, NO_RESPONSE) == Got(Response(m.body, 0), |front|);
    }
  }

  // ---------------------------------------------------------------- accepted byte strings

  /** Whatever bytes are accepted, the request they give is one that can be sent and survives the wire. */
  lemma AcceptedRequestRoundTrips(data: seq<byte>, m: Request)
    requires ParseRequest(data, 0, NO_REQUEST) == Ok(m) && |RequestBytes(m)| <= MAX_INT
    ensures ValidRequest(m) && !m.data.NilHash? && ParseRequest(RequestBytes(m), 0, NO_REQUEST) == Ok(m)
  {
    ParsedRequestIsValid(data, 0, NO_REQUEST);
    RequestRoundTrip(m);
  }

  lemma {:induction false} ParsedRequestIsValid(data: seq<byte>, i: nat, m: Request)
    requires i <= |data| && ValidRequest(m) && !m.data.NilHash?
    ensures var r := ParseRequest(data, i, m); r.Ok? ==> ValidRequest(r.value) && !r.value.data.NilHash?
    decreases |data| - i
  {
    if i < |data| {
      var field := RequestField(data, i, m);
      if field.Got? {
        RequestFieldIsValid(data, i, m);
        ParsedRequestIsValid(data, field.next, field.value);
      }
    }
  }

  lemma RequestFieldIsValid(data: seq<byte>, i: nat, m: Request)
    requires i <= |data| && ValidRequest(m) && !m.data.NilHash?
    ensures var r := RequestField(data, i, m); r.Got? ==> ValidRequest(r.value) && !r.value.data.NilHash?
  {
  }

  lemma AcceptedResponseRoundTrips(data: seq<byte>, m: Response)
    requires ParseResponse(data, 0, NO_RESPONSE) == Ok(m)
    ensures ValidResponse(m)
    ensures |ResponseBytes(m)| <= MAX_INT ==> ParseResponse(ResponseBytes(m), 0, NO_RESPONSE) == Ok(m)
  {
    ParsedResponseIsValid(data, 0, NO_RESPONSE);
    if |ResponseBytes(m)| <= MAX_INT {
      ResponseRoundTrip(m);
    }
  }

  lemma {:induction false} ParsedResponseIsValid(data: seq<byte>, i: nat, m: Response)
    requires i <= |data| && ValidResponse(m)
    ensures var r := ParseResponse(data, i, m); r.Ok? ==> ValidResponse(r.value)
    decreases |data| - i
  {
    if i < |data| {
      var field := ResponseField(data, i, m);
      if field.Got? {
        ResponseFieldIsValid(data, i, m);
        ParsedResponseIsValid(data, field.next, field.value);
      }
    }
  }

  lemma ResponseFieldIsValid(data: seq<byte>, i: nat, m: Response)
    requires i <= |data| && ValidResponse(m)
    ensures var r := ResponseField(data, i, m); r.Got? ==> ValidResponse(r.value)
  {
  }
}
