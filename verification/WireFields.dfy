/**
 * What Unmarshal of the wire messages (p2p/pb/header_request.pb.go) makes of any list of well-formed
 * fields: known fields set what they name, the last one wins, a known field of another wire type is an
 * error, and unknown fields of every wire type, nested groups included, are skipped.
 */
module WireFields {
  import opened Headers
  import opened Varint
  import opened HeaderMessages

  /** A field with its number, in each of the wire types of the Protocol Buffers encoding. */
  datatype Field =
    | VarintField(num: nat, v: nat)
    | Fixed64(num: nat, raw: seq<byte>)
    | BytesField(num: nat, bytes: seq<byte>)
    | Group(num: nat, fields: seq<Field>)
    | Fixed32(num: nat, raw: seq<byte>)

  function Wire(f: Field): nat {
    match f
    case VarintField(_, _) => 0
    case Fixed64(_, _) => 1
    case BytesField(_, _) => 2
    case Group(_, _) => 3
    case Fixed32(_, _) => 5
  }

  /** Field numbers have 29 bits. */
  predicate Well(f: Field) {
    && 1 <= f.num < 0x2000_0000
    && match f
       case VarintField(_, v) => v < TWO_64
       case Fixed64(_, raw) => |raw| == 8
       case BytesField(_, _) => true
       case Group(_, fields) => AllWell(fields)
       case Fixed32(_, raw) => |raw| == 4
  }

  predicate AllWell(fields: seq<Field>) {
    forall f | f in fields :: Well(f)
  }

  function Tag(num: nat, wire: nat): (tag: seq<byte>)
    ensures tag != []
  {
    Bytes(8 * num + wire)
  }

  function ValueBytes(f: Field): seq<byte>
    decreases f, 0
  {
    match f
    case VarintField(_, v) => Bytes(v)
    case Fixed64(_, raw) => raw
    case BytesField(_, bytes) => Bytes(|bytes|) + bytes
    case Group(num, fields) => AllBytes(fields) + Tag(num, 4)
    case Fixed32(_, raw) => raw
  }

  function FieldBytes(f: Field): (b: seq<byte>)
    ensures b != []
    decreases f, 1
  {
    Tag(f.num, Wire(f)) + ValueBytes(f)
  }

  function AllBytes(fields: seq<Field>): seq<byte>
    decreases fields, 0
  {
    if fields == [] then [] else FieldBytes(fields[0]) + AllBytes(fields[1..])
  }

  lemma Regroup(pre: seq<byte>, a: seq<byte>, b: seq<byte>, post: seq<byte>)
    ensures pre + (a + b) + post == pre + a + (b + post) == pre + a + b + post
    ensures pre + (a + b) == pre + a + b
  {
  }

  lemma FirstInFront(pre: seq<byte>, fields: seq<Field>)
    requires fields != []
    ensures pre + AllBytes(fields) == pre + FieldBytes(fields[0]) + AllBytes(fields[1..])
    ensures |pre + FieldBytes(fields[0])| <= |pre + AllBytes(fields)|
  {
    Regroup(pre, FieldBytes(fields[0]), AllBytes(fields[1..]), []);
  }

  // ---------------------------------------------------------------- reading one tag

  lemma TagDecodes(pre: seq<byte>, num: nat, wire: nat, post: seq<byte>)
    requires num < 0x2000_0000 && wire < 8
    ensures Decode(pre + Tag(num, wire) + post, |pre|) == Got(8 * num + wire, |pre| + |Tag(num, wire)|)
  {
    VarintRoundTrip(pre, 8 * num + wire, post);
    BytesTakeSov(8 * num + wire);
  }

  lemma TagParts(num: nat, wire: nat)
    requires num < 0x2000_0000 && wire < 8
    ensures (8 * num + wire) % 8 == wire && (8 * num + wire) / 8 == num && ToInt32(num) == num
  {
  }

  /** A tag is read as its field number and wire type; an end of a group, or the number zero, is an error. */
  lemma TagIsKey(pre: seq<byte>, num: nat, wire: nat, post: seq<byte>)
    requires num < 0x2000_0000 && wire < 8
    ensures ReadKey(pre + Tag(num, wire) + post, |pre|)
            == if wire == 4 then Fail(EndGroup) else if num == 0 then Fail(IllegalTag)
               else Got(Key(num, wire), |pre| + |Tag(num, wire)|)
  {
    TagDecodes(pre, num, wire, post);
    TagParts(num, wire);
  }

  lemma TagIsRead(pre: seq<byte>, f: Field, post: seq<byte>)
    requires Well(f)
    ensures Decode(pre + FieldBytes(f) + post, |pre|) == Got(8 * f.num + Wire(f), |pre + Tag(f.num, Wire(f))|)
  {
    Regroup(pre, Tag(f.num, Wire(f)), ValueBytes(f), post);
    TagDecodes(pre, f.num, Wire(f), ValueBytes(f) + post);
  }

  lemma VarintIsRead(pre: seq<byte>, f: Field, post: seq<byte>)
    requires Well(f) && f.VarintField?
    ensures Decode(pre + FieldBytes(f) + post, |pre| + |Tag(f.num, 0)|) == Got(f.v, |pre + FieldBytes(f)|)
  {
    Regroup(pre, Tag(f.num, 0), Bytes(f.v), post);
    VarintRoundTrip(pre + Tag(f.num, 0), f.v, post);
    BytesTakeSov(f.v);
  }

  lemma LengthIsRead(pre: seq<byte>, f: Field, post: seq<byte>)
    requires Well(f) && f.BytesField? && |f.bytes| < TWO_64
    ensures Decode(pre + FieldBytes(f) + post, |pre| + |Tag(f.num, 2)|) == Got(|f.bytes|, |pre + Tag(f.num, 2) + Bytes(|f.bytes|)|)
  {
    var front, n := pre + Tag(f.num, 2), |f.bytes|;
    Regroup(pre, Tag(f.num, 2), Bytes(n) + f.bytes, post);
    Regroup(front, Bytes(n), f.bytes, post);
    VarintRoundTrip(front, n, f.bytes + post);
    BytesTakeSov(n);
  }

  // ---------------------------------------------------------------- skipping

  /** The skipping goes on behind a field, or ends there if no group is open. */
  function Behind(data: seq<byte>, k: nat, depth: nat): Read<()> {
    if depth == 0 then Got((), k) else SkipFrom(data, k, depth)
  }

  /** The tag and value of a field that is not a group, skipped in one go. */
  lemma SkipPlain(pre: seq<byte>, f: Field, post: seq<byte>, depth: nat)
    requires Well(f) && !f.Group? && |pre + FieldBytes(f) + post| <= MAX_INT
    ensures SkipOne(pre + FieldBytes(f) + post, |pre|, depth) == Got(depth, |pre + FieldBytes(f)|)
  {
    TagIsRead(pre, f, post);
    TagParts(f.num, Wire(f));
    match f
    case VarintField(_, _) => VarintIsRead(pre, f, post);
    case BytesField(_, _) => LengthIsRead(pre, f, post);
    case _ =>
  }

  lemma SkipGroupTag(pre: seq<byte>, num: nat, end: bool, post: seq<byte>, depth: nat)
    requires num < 0x2000_0000 && (end ==> depth > 0)
    requires |pre + Tag(num, if end then 4 else 3) + post| <= MAX_INT
    ensures var tag := Tag(num, if end then 4 else 3);
            SkipOne(pre + tag + post, |pre|, depth) == Got(if end then depth - 1 else depth + 1, |pre + tag|)
  {
    var wire := if end then 4 else 3;
    TagDecodes(pre, num, wire, post);
    TagParts(num, wire);
  }

  /** Skipping at a well-formed field ends right behind it, or goes on there inside a group. */
  lemma {:induction false} SkipsField(pre: seq<byte>, f: Field, post: seq<byte>, depth: nat)
    requires Well(f) && |pre + FieldBytes(f) + post| <= MAX_INT
    ensures SkipFrom(pre + FieldBytes(f) + post, |pre|, depth) == Behind(pre + FieldBytes(f) + post, |pre + FieldBytes(f)|, depth)
    decreases f, 0
  {
    var data := pre + FieldBytes(f) + post;
    if !f.Group? {
      SkipPlain(pre, f, post, depth);
    } else {
      var tag, inner, end := Tag(f.num, 3), AllBytes(f.fields), Tag(f.num, 4);
      Regroup(pre, tag, inner + end, post);
      Regroup(pre + tag, inner, end, post);
      SkipGroupTag(pre, f.num, false, inner + end + post, depth);
      SkipsFields(pre + tag, f.fields, end + post, depth + 1);
      SkipGroupTag(pre + tag + inner, f.num, true, post, depth + 1);
    }
  }

  lemma {:induction false} SkipsFields(pre: seq<byte>, fields: seq<Field>, post: seq<byte>, depth: nat)
    requires AllWell(fields) && |pre + AllBytes(fields) + post| <= MAX_INT && depth > 0
    ensures SkipFrom(pre + AllBytes(fields) + post, |pre|, depth)
            == SkipFrom(pre + AllBytes(fields) + post, |pre + AllBytes(fields)|, depth)
    decreases fields, 0
  {
    if fields == [] {
      assert pre + AllBytes(fields) == pre;
    } else {
      var first, rest := FieldBytes(fields[0]), AllBytes(fields[1..]);
      Regroup(pre, first, rest, post);
      SkipsField(pre, fields[0], rest + post, depth);
      SkipsFields(pre + first, fields[1..], post, depth);
    }
  }

  /** The default branch of Unmarshal steps over an unknown field. */
  lemma SkipsUnknown(pre: seq<byte>, f: Field, post: seq<byte>)
    requires Well(f) && |pre + FieldBytes(f) + post| <= MAX_INT
    ensures Skip(pre + FieldBytes(f) + post, |pre|) == Got((), |pre + FieldBytes(f)|)
  {
    var data := pre + FieldBytes(f) + post;
    assert data[|pre|..] == [] + FieldBytes(f) + post;
    SkipsField([], f, post, 0);
    assert [] + FieldBytes(f) == FieldBytes(f);
  }

  // ---------------------------------------------------------------- requests

  /** What one field does to a request. */
  function SetInRequest(m: Request, f: Field): Result<Request> {
    if f.num == 1 then if f.VarintField? then Ok(m.(data := Origin(f.v))) else Err(WrongWireType)
    else if f.num == 2 then if f.BytesField? then Ok(m.(data := HashData(f.bytes))) else Err(WrongWireType)
    else if f.num == 3 then if f.VarintField? then Ok(m.(amount := f.v)) else Err(WrongWireType)
    else Ok(m)
  }

  function SetAllInRequest(m: Request, fields: seq<Field>): Result<Request>
    decreases |fields|
  {
    if fields == [] then Ok(m)
    else
      match SetInRequest(m, fields[0])
      case Err(err) => Err(err)
      case Ok(m') => SetAllInRequest(m', fields[1..])
  }

  lemma KeyIsRead(pre: seq<byte>, f: Field, post: seq<byte>)
    requires Well(f)
    ensures ReadKey(pre + FieldBytes(f) + post, |pre|) == Got(Key(f.num, Wire(f)), |pre| + |Tag(f.num, Wire(f))|)
  {
    Regroup(pre, Tag(f.num, Wire(f)), ValueBytes(f), post);
    TagIsKey(pre, f.num, Wire(f), ValueBytes(f) + post);
  }

  lemma BytesAreRead(pre: seq<byte>, f: Field, post: seq<byte>)
    requires Well(f) && f.BytesField? && |pre + FieldBytes(f) + post| <= MAX_INT
    ensures ReadBytes(pre + FieldBytes(f) + post, |pre| + |Tag(f.num, 2)|) == Got(f.bytes, |pre + FieldBytes(f)|)
  {
    var data, n := pre + FieldBytes(f) + post, |f.bytes|;
    LengthIsRead(pre, f, post);
    var k := |pre + FieldBytes(f)| - n;
    assert pre + FieldBytes(f) == (pre + Tag(f.num, 2) + Bytes(n)) + f.bytes;
    assert data[k..k + n] == f.bytes;
  }

  /** The key and the value of a field, read from wherever it stands. */
  lemma FieldIsRead(pre: seq<byte>, f: Field, post: seq<byte>)
    requires Well(f) && |pre + FieldBytes(f) + post| <= MAX_INT
    ensures var data, j := pre + FieldBytes(f) + post, |pre| + |Tag(f.num, Wire(f))|;
            && ReadKey(data, |pre|) == Got(Key(f.num, Wire(f)), j)
            && (f.VarintField? ==> Decode(data, j) == Got(f.v, |pre + FieldBytes(f)|))
            && (f.BytesField? ==> ReadBytes(data, j) == Got(f.bytes, |pre + FieldBytes(f)|))
  {
    KeyIsRead(pre, f, post);
    if f.VarintField? {
      VarintIsRead(pre, f, post);
    } else if f.BytesField? {
      BytesAreRead(pre, f, post);
    }
  }

  lemma RequestFieldIs(pre: seq<byte>, f: Field, post: seq<byte>, m: Request)
    requires Well(f) && |pre + FieldBytes(f) + post| <= MAX_INT
    ensures RequestField(pre + FieldBytes(f) + post, |pre|, m)
            == match SetInRequest(m, f) case Ok(m') => Got(m', |pre + FieldBytes(f)|) case Err(err) => Fail(err)
  {
    FieldIsRead(pre, f, post);
    SkipsUnknown(pre, f, post);
  }

  lemma FirstRequestField(pre: seq<byte>, fields: seq<Field>, m: Request)
    requires fields != [] && AllWell(fields) && |pre + AllBytes(fields)| <= MAX_INT
    ensures var data := pre + AllBytes(fields);
            (FirstInFront(pre, fields);
             ParseRequest(data, |pre|, m) == match SetInRequest(m, fields[0])
                                         case Ok(m') => ParseRequest(data, |pre + FieldBytes(fields[0])|, m')
                                         case Err(err) => Err(err))
  {
    var first, rest := FieldBytes(fields[0]), AllBytes(fields[1..]);
    FirstInFront(pre, fields);
    RequestFieldIs(pre, fields[0], rest, m);
  }

  /** Every list of well-formed fields, in any order, with repeats and unknown ones, decodes to what the fields say. */
  lemma {:induction false} RequestFieldsDecode(pre: seq<byte>, fields: seq<Field>, m: Request)
    requires AllWell(fields) && |pre + AllBytes(fields)| <= MAX_INT
    ensures ParseRequest(pre + AllBytes(fields), |pre|, m) == SetAllInRequest(m, fields)
    decreases |fields|
  {
    if fields == [] {
      assert pre + AllBytes(fields) == pre;
    } else {
      FirstRequestField(pre, fields, m);
      FirstInFront(pre, fields);
      var one := SetInRequest(m, fields[0]);
      if one.Ok? {
        RequestFieldsDecode(pre + FieldBytes(fields[0]), fields[1..], one.value);
      }
    }
  }

  // ---------------------------------------------------------------- responses

  function SetInResponse(m: Response, f: Field): Result<Response> {
    if f.num == 1 then if f.BytesField? then Ok(m.(body := f.bytes)) else Err(WrongWireType)
    else if f.num == 2 then if f.VarintField? then Ok(m.(statusCode := ToInt32(f.v))) else Err(WrongWireType)
    else Ok(m)
  }

  function SetAllInResponse(m: Response, fields: seq<Field>): Result<Response>
    decreases |fields|
  {
    if fields == [] then Ok(m)
    else
      match SetInResponse(m, fields[0])
      case Err(err) => Err(err)
      case Ok(m') => SetAllInResponse(m', fields[1..])
  }

  lemma ResponseFieldIs(pre: seq<byte>, f: Field, post: seq<byte>, m: Response)
    requires Well(f) && |pre + FieldBytes(f) + post| <= MAX_INT
    ensures ResponseField(pre + FieldBytes(f) + post, |pre|, m)
            == match SetInResponse(m, f) case Ok(m') => Got(m', |pre + FieldBytes(f)|) case Err(err) => Fail(err)
  {
    FieldIsRead(pre, f, post);
    SkipsUnknown(pre, f, post);
  }

  lemma FirstResponseField(pre: seq<byte>, fields: seq<Field>, m: Response)
    requires fields != [] && AllWell(fields) && |pre + AllBytes(fields)| <= MAX_INT
    ensures var data := pre + AllBytes(fields);
            (FirstInFront(pre, fields);
             ParseResponse(data, |pre|, m) == match SetInResponse(m, fields[0])
                                         case Ok(m') => ParseResponse(data, |pre + FieldBytes(fields[0])|, m')
                                         case Err(err) => Err(err))
  {
    var first, rest := FieldBytes(fields[0]), AllBytes(fields[1..]);
    FirstInFront(pre, fields);
    ResponseFieldIs(pre, fields[0], rest, m);
  }

  lemma {:induction false} ResponseFieldsDecode(pre: seq<byte>, fields: seq<Field>, m: Response)
    requires AllWell(fields) && |pre + AllBytes(fields)| <= MAX_INT
    ensures ParseResponse(pre + AllBytes(fields), |pre|, m) == SetAllInResponse(m, fields)
    decreases |fields|
  {
    if fields == [] {
      assert pre + AllBytes(fields) == pre;
    } else {
      FirstResponseField(pre, fields, m);
      FirstInFront(pre, fields);
      var one := SetInResponse(m, fields[0]);
      if one.Ok? {
        ResponseFieldsDecode(pre + FieldBytes(fields[0]), fields[1..], one.value);
      }
    }
  }

  /** A bytes field whose length is no int, or leads past the largest one, or past the end of the data, is refused. */
  lemma BadLengthIsRefused(pre: seq<byte>, num: nat, n: nat, post: seq<byte>, m: Request, r: Response)
    requires (num == 1 || num == 2) && n < TWO_64
    requires |pre + Tag(num, 2) + Bytes(n)| <= MAX_INT && |post| < n
    ensures var data := pre + Tag(num, 2) + Bytes(n) + post;
            var err := if n >= TWO_63 || |pre + Tag(num, 2) + Bytes(n)| + n > MAX_INT then InvalidLength else UnexpectedEOF;
            if num == 2 then ParseRequest(data, |pre|, m) == Err(err) else ParseResponse(data, |pre|, r) == Err(err)
  {
    var tag := Tag(num, 2);
    assert pre + tag + Bytes(n) + post == pre + tag + (Bytes(n) + post);
    TagIsKey(pre, num, 2, Bytes(n) + post);
    VarintRoundTrip(pre + tag, n, post);
    BytesTakeSov(n);
  }

  /** A varint field whose varint does not end is refused, whatever the field. */
  lemma EndlessValueIsRefused(pre: seq<byte>, num: nat, tail: seq<byte>, m: Request)
    requires (num == 1 || num == 3) && forall b | b in tail :: b >= 128
    ensures ParseRequest(pre + Tag(num, 0) + tail, |pre|, m) == Err(if |tail| >= 10 then IntOverflow else UnexpectedEOF)
  {
    TagIsKey(pre, num, 0, tail);
    var data, j := pre + Tag(num, 0) + tail, |pre + Tag(num, 0)|;
    forall k | j <= k < |data| ensures data[k] >= 128 {
      assert data[k] == tail[k - j] && tail[k - j] in tail;
    }
    EndlessVarint(data, j, 0, 1, 0);
  }

  /** A tag that ends a group nobody opened, or has the number zero, is refused, whatever follows. */
  lemma BadTagIsRefused(pre: seq<byte>, num: nat, wire: nat, post: seq<byte>, m: Request, r: Response)
    requires num < 0x2000_0000 && wire < 8 && (wire == 4 || num == 0)
    ensures var data, err := pre + Tag(num, wire) + post, if wire == 4 then EndGroup else IllegalTag;
            ParseRequest(data, |pre|, m) == Err(err) && ParseResponse(data, |pre|, r) == Err(err)
  {
    TagIsKey(pre, num, wire, post);
  }
}
