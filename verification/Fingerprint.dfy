/** The byte stream that is hashed into the fingerprint of an upload request: every field behind its
    length, and a decoder that recovers the request from it.
  */
module Fingerprint {
  import opened Rows
  import opened Slots
  import opened Steps
  import opened Invariants
  import opened Preservation
  import opened Histories

  type Byte = b: int | 0 <= b < 256

  type Bytes = seq<Byte>

  const LENGTH_BYTES: nat := 8
  const INSTANT_BYTES: nat := 16
  const TWO_TO_127: int := 0x8000_0000_0000_0000_0000_0000_0000_0000
  const TWO_TO_128: int := 0x1_0000_0000_0000_0000_0000_0000_0000_0000
  const U32_MAX: int := 0xFFFF_FFFF

  /** A staged file as the request carries it.  Its storage key is not part of the fingerprint. */
  datatype StagedInput = StagedInput(
    storageKey: Bytes, displayName: Bytes, mediaType: Bytes, byteSize: nat, width: nat, height: nat, checksum: Bytes)

  datatype StagedRequest = StagedRequest(
    name: Bytes, maxWidth: nat, jpegQuality: nat, priority: Priority, availableAt: Option<Time>, inputs: seq<StagedInput>)

  /** The value ranges of the Rust types.  No slice is longer than isize::MAX. */
  predicate ValidBytes(b: Bytes) {
    |b| <= I64_MAX
  }

  predicate ValidInput(i: StagedInput) {
    && ValidBytes(i.displayName) && ValidBytes(i.mediaType) && ValidBytes(i.checksum)
    && i.byteSize <= U64_MAX && i.width <= U32_MAX && i.height <= U32_MAX
  }

  predicate ValidRequest(r: StagedRequest) {
    && ValidBytes(r.name) && r.maxWidth <= U32_MAX && r.jpegQuality < 256
    && (r.availableAt.Some? ==> Representable(r.availableAt.value))
    && forall k :: 0 <= k < |r.inputs| ==> ValidInput(r.inputs[k])
  }

  // ---------------------------------------------------------------- integers as bytes

  function Power256(n: nat): (p: nat)
    ensures p > 0
  {
    if n == 0 then 1 else 256 * Power256(n - 1)
  }

  /** to_be_bytes: the n low bytes of a value, most significant first. */
  function BigEndian(value: nat, n: nat): (b: Bytes)
    ensures |b| == n
  {
    if n == 0 then [] else BigEndian(value / 256, n - 1) + [value % 256]
  }

  function FromBigEndian(b: Bytes): nat {
    if b == [] then 0 else 256 * FromBigEndian(b[..|b| - 1]) + b[|b| - 1]
  }

  lemma {:induction false} BigEndianReads(value: nat, n: nat)
    requires value < Power256(n)
    ensures FromBigEndian(BigEndian(value, n)) == value
  {
    if n > 0 {
      BigEndianReads(value / 256, n - 1);
      assert BigEndian(value, n)[..n - 1] == BigEndian(value / 256, n - 1);
    }
  }

  /** i128::to_be_bytes, in two's complement. */
  function SignedBytes(value: int): Bytes
    requires -TWO_TO_127 <= value < TWO_TO_127
  {
    BigEndian(if value < 0 then value + TWO_TO_128 else value, INSTANT_BYTES)
  }

  function FromSignedBytes(b: Bytes): int {
    var value := FromBigEndian(b);
    if value < TWO_TO_127 then value else value - TWO_TO_128
  }

  lemma Powers()
    ensures Power256(1) == 256 && Power256(4) == U32_MAX + 1 && Power256(8) == U64_MAX + 1 && Power256(16) == TWO_TO_128
  {
    assert Power256(2) == 65536;
    assert Power256(4) == 256 * 256 * Power256(2);
    assert Power256(6) == 256 * 256 * Power256(4);
    assert Power256(8) == 256 * 256 * Power256(6);
    assert Power256(10) == 256 * 256 * Power256(8);
    assert Power256(12) == 256 * 256 * Power256(10);
    assert Power256(14) == 256 * 256 * Power256(12);
    assert Power256(16) == 256 * 256 * Power256(14);
  }

  // ---------------------------------------------------------------- the stream

  /** One part: its length in eight bytes, saturating, then its bytes. */
  function Part(value: Bytes): Bytes {
    BigEndian(if |value| <= U64_MAX then |value| else U64_MAX, LENGTH_BYTES) + value
  }

  function PriorityName(p: Priority): Bytes {
    match p
    case High => [104, 105, 103, 104]
    case Normal => [110, 111, 114, 109, 97, 108]
    case Low => [108, 111, 119]
  }

  function InstantBytes(at: Option<Time>): Bytes
    requires at.Some? ==> Representable(at.value)
  {
    if at.None? then [] else SignedBytes(at.value)
  }

  function InputParts(i: StagedInput): seq<Bytes> {
    [i.displayName, i.mediaType, BigEndian(i.byteSize, 8), BigEndian(i.width, 4), BigEndian(i.height, 4), i.checksum]
  }

  function AllInputParts(inputs: seq<StagedInput>): seq<Bytes> {
    if inputs == [] then [] else AllInputParts(inputs[..|inputs| - 1]) + InputParts(inputs[|inputs| - 1])
  }

  function HeadParts(r: StagedRequest): (parts: seq<Bytes>)
    requires ValidRequest(r)
    ensures |parts| == 5
  {
    [r.name, BigEndian(r.maxWidth, 4), [r.jpegQuality as Byte], PriorityName(r.priority), InstantBytes(r.availableAt)]
  }

  function RequestParts(r: StagedRequest): seq<Bytes>
    requires ValidRequest(r)
  {
    HeadParts(r) + AllInputParts(r.inputs)
  }

  function Concat(parts: seq<Bytes>): Bytes {
    if parts == [] then [] else Concat(parts[..|parts| - 1]) + Part(parts[|parts| - 1])
  }

  /** The stream that is hashed. */
  function Preimage(r: StagedRequest): Bytes
    requires ValidRequest(r)
  {
    Concat(RequestParts(r))
  }

  class Digest {
    var stream: Bytes

    constructor ()
      ensures stream == []
    {
      stream := [];
    }

    method Update(bytes: Bytes)
      modifies this
      ensures stream == old(stream) + bytes
    {
      stream := stream + bytes;
    }
  }

  method FingerprintPart(digest: Digest, value: Bytes)
    modifies digest
    ensures digest.stream == old(digest.stream) + Part(value)
  {
    digest.Update(BigEndian(if |value| <= U64_MAX then |value| else U64_MAX, LENGTH_BYTES));
    digest.Update(value);
  }

  /** Feeds a request to a digest, part by part. */
  method FingerprintRequest(r: StagedRequest) returns (digest: Digest)
    requires ValidRequest(r)
    ensures fresh(digest) && digest.stream == Preimage(r)
  {
    hide BigEndian, Part, Concat, AllInputParts, PriorityName, InstantBytes;
    digest := new Digest();
    ghost var parts := HeadParts(r);
    FingerprintPart(digest, r.name);
    FingerprintPart(digest, BigEndian(r.maxWidth, 4));
    FingerprintPart(digest, [r.jpegQuality as Byte]);
    FingerprintPart(digest, PriorityName(r.priority));
    FingerprintPart(digest, InstantBytes(r.availableAt));
    ConcatFive(parts);
    NoInputParts(parts, r.inputs);
    var k := 0;
    while k < |r.inputs|
      invariant k <= |r.inputs| && digest.stream == Concat(parts + AllInputParts(r.inputs[..k]))
    {
      var i := r.inputs[k];
      FingerprintPart(digest, i.displayName);
      FingerprintPart(digest, i.mediaType);
      FingerprintPart(digest, BigEndian(i.byteSize, 8));
      FingerprintPart(digest, BigEndian(i.width, 4));
      FingerprintPart(digest, BigEndian(i.height, 4));
      FingerprintPart(digest, i.checksum);
      ConcatSix(parts + AllInputParts(r.inputs[..k]), InputParts(i));
      NextInputParts(parts, r.inputs, k);
      k := k + 1;
    }
    assert r.inputs[..k] == r.inputs;
  }

  lemma NoInputParts(parts: seq<Bytes>, inputs: seq<StagedInput>)
    ensures parts + AllInputParts(inputs[..0]) == parts
  {
  }

  lemma NextInputParts(parts: seq<Bytes>, inputs: seq<StagedInput>, k: nat)
    requires k < |inputs|
    ensures parts + AllInputParts(inputs[..k + 1]) == (parts + AllInputParts(inputs[..k])) + InputParts(inputs[k])
  {
    assert inputs[..k + 1][..k] == inputs[..k];
  }

  lemma ConcatOne(parts: seq<Bytes>, last: Bytes)
    ensures Concat(parts + [last]) == Concat(parts) + Part(last)
  {
    assert (parts + [last])[..|parts|] == parts;
  }

  lemma ConcatFive(p: seq<Bytes>)
    requires |p| == 5
    ensures Concat(p) == Part(p[0]) + Part(p[1]) + Part(p[2]) + Part(p[3]) + Part(p[4])
  {
    NoParts();
    hide Concat, Part;
    ConcatOne(p[..0], p[0]);
    ConcatOne(p[..1], p[1]);
    ConcatOne(p[..2], p[2]);
    ConcatOne(p[..3], p[3]);
    ConcatOne(p[..4], p[4]);
    assert p[..0] == [] && p[..0] + [p[0]] == p[..1] && p[..1] + [p[1]] == p[..2] && p[..2] + [p[2]] == p[..3];
    assert p[..3] + [p[3]] == p[..4] && p[..4] + [p[4]] == p;
  }

  lemma NoParts()
    ensures Concat([]) == []
  {
  }

  lemma ConcatSix(front: seq<Bytes>, p: seq<Bytes>)
    requires |p| == 6
    ensures Concat(front + p) == Concat(front) + Part(p[0]) + Part(p[1]) + Part(p[2]) + Part(p[3]) + Part(p[4]) + Part(p[5])
  {
    assert front + p == front + [p[0]] + [p[1]] + [p[2]] + [p[3]] + [p[4]] + [p[5]];
    hide Concat, Part;
    ConcatOne(front, p[0]);
    ConcatOne(front + [p[0]], p[1]);
    ConcatOne(front + [p[0]] + [p[1]], p[2]);
    ConcatOne(front + [p[0]] + [p[1]] + [p[2]], p[3]);
    ConcatOne(front + [p[0]] + [p[1]] + [p[2]] + [p[3]], p[4]);
    ConcatOne(front + [p[0]] + [p[1]] + [p[2]] + [p[3]] + [p[4]], p[5]);
  }

  // ---------------------------------------------------------------- the decoder

  /** Splits a stream into its parts, or fails. */
  function SplitParts(stream: Bytes): Option<seq<Bytes>>
    decreases |stream|
  {
    if stream == [] then Some([])
    else if |stream| < LENGTH_BYTES then None
    else
      var n := FromBigEndian(stream[..LENGTH_BYTES]);
      if LENGTH_BYTES + n > |stream| then None
      else
        match SplitParts(stream[LENGTH_BYTES + n..])
        case None => None
        case Some(rest) => Some([stream[LENGTH_BYTES..LENGTH_BYTES + n]] + rest)
  }

  function ReadPriority(b: Bytes): Option<Priority> {
    if b == PriorityName(High) then Some(High)
    else if b == PriorityName(Normal) then Some(Normal)
    else if b == PriorityName(Low) then Some(Low)
    else None
  }

  function ReadInputs(parts: seq<Bytes>): Option<seq<StagedInput>>
    decreases |parts|
  {
    if parts == [] then Some([])
    else if |parts| < 6 then None
    else
      match ReadInputs(parts[6..])
      case None => None
      case Some(rest) =>
        Some([StagedInput([], parts[0], parts[1], FromBigEndian(parts[2]), FromBigEndian(parts[3]), FromBigEndian(parts[4]), parts[5])]
             + rest)
  }

  function Decode(stream: Bytes): Option<StagedRequest> {
    match SplitParts(stream)
    case None => None
    case Some(parts) =>
      if |parts| < 5 || |parts[2]| != 1 then None
      else
        var at := if parts[4] == [] then None else Some(FromSignedBytes(parts[4]));
        match (ReadPriority(parts[3]), ReadInputs(parts[5..]))
        case (Some(priority), Some(inputs)) =>
          Some(StagedRequest(parts[0], FromBigEndian(parts[1]), parts[2][0], priority, at, inputs))
        case _ => None
  }

  /** A request as the fingerprint sees it: everything but the storage keys. */
  function Seen(r: StagedRequest): StagedRequest {
    r.(inputs := SeenInputs(r.inputs))
  }

  function SeenInputs(inputs: seq<StagedInput>): seq<StagedInput> {
    seq(|inputs|, k requires 0 <= k < |inputs| => inputs[k].(storageKey := []))
  }

  predicate AllShort(parts: seq<Bytes>) {
    forall k :: 0 <= k < |parts| ==> ValidBytes(parts[k])
  }

  lemma ReadsFirstPart(value: Bytes, rest: Bytes)
    requires ValidBytes(value)
    ensures SplitParts(Part(value) + rest)
            == match SplitParts(rest) case None => None case Some(parts) => Some([value] + parts)
  {
    var stream := Part(value) + rest;
    Powers();
    BigEndianReads(|value|, LENGTH_BYTES);
    assert stream[..LENGTH_BYTES] == BigEndian(|value|, LENGTH_BYTES);
    assert stream[LENGTH_BYTES..LENGTH_BYTES + |value|] == value;
    assert stream[LENGTH_BYTES + |value|..] == rest;
  }

  lemma MoveBracket(front: Bytes, middle: Bytes, tail: Bytes)
    ensures (front + middle) + tail == front + (middle + tail)
  {
  }

  lemma MovePart(front: seq<Bytes>, part: Bytes, tail: seq<Bytes>)
    ensures (front + [part]) + tail == front + ([part] + tail)
  {
  }

  /** Splitting a concatenation gives back its parts. */
  lemma {:induction false} SplitsConcat(parts: seq<Bytes>, tail: Bytes)
    requires AllShort(parts)
    ensures SplitParts(Concat(parts) + tail)
            == match SplitParts(tail) case None => None case Some(more) => Some(parts + more)
    decreases |parts|
  {
    hide SplitParts, Part, Concat;
    if parts == [] {
      NoParts();
      assert [] + tail == tail;
      assert SplitParts(tail).Some? ==> parts + SplitParts(tail).value == SplitParts(tail).value;
    } else {
      var front, last := parts[..|parts| - 1], parts[|parts| - 1];
      assert parts == front + [last];
      ConcatOne(front, last);
      MoveBracket(Concat(front), Part(last), tail);
      SplitsConcat(front, Part(last) + tail);
      ReadsFirstPart(last, tail);
      if SplitParts(tail).Some? {
        MovePart(front, last, SplitParts(tail).value);
      }
    }
  }

  lemma ReadsOneInput(i: StagedInput, tail: seq<Bytes>, more: seq<StagedInput>)
    requires ValidInput(i) && ReadInputs(tail) == Some(more)
    ensures ReadInputs(InputParts(i) + tail) == Some([i.(storageKey := [])] + more)
  {
    var parts := InputParts(i) + tail;
    Powers();
    BigEndianReads(i.byteSize, 8);
    BigEndianReads(i.width, 4);
    BigEndianReads(i.height, 4);
    hide BigEndian, FromBigEndian;
    assert parts[6..] == tail;
    assert forall k :: 0 <= k < 6 ==> parts[k] == InputParts(i)[k];
  }

  /** Reading the parts of an input list gives back the list without storage keys. */
  lemma {:induction false} ReadsInputs(inputs: seq<StagedInput>, tail: seq<Bytes>, more: seq<StagedInput>)
    requires forall k :: 0 <= k < |inputs| ==> ValidInput(inputs[k])
    requires ReadInputs(tail) == Some(more)
    ensures ReadInputs(AllInputParts(inputs) + tail) == Some(SeenInputs(inputs) + more)
    decreases |inputs|
  {
    hide ReadInputs, InputParts, ValidInput;
    if inputs == [] {
      assert AllInputParts(inputs) + tail == tail && SeenInputs(inputs) + more == more;
    } else {
      var front, last := inputs[..|inputs| - 1], inputs[|inputs| - 1];
      var seen := last.(storageKey := []);
      ReadsOneInput(last, tail, more);
      ReadsInputs(front, InputParts(last) + tail, [seen] + more);
      assert AllInputParts(inputs) + tail == AllInputParts(front) + (InputParts(last) + tail);
      assert SeenInputs(inputs) == SeenInputs(front) + [seen];
      assert SeenInputs(inputs) + more == SeenInputs(front) + ([seen] + more);
    }
  }

  lemma {:induction false} InputPartsAreShort(inputs: seq<StagedInput>)
    requires forall k :: 0 <= k < |inputs| ==> ValidInput(inputs[k])
    ensures AllShort(AllInputParts(inputs))
    decreases |inputs|
  {
    if inputs != [] {
      InputPartsAreShort(inputs[..|inputs| - 1]);
      assert ValidInput(inputs[|inputs| - 1]);
    }
  }

  lemma SplitsRequest(r: StagedRequest)
    requires ValidRequest(r)
    ensures SplitParts(Preimage(r)) == Some(RequestParts(r))
  {
    var parts := RequestParts(r);
    InputPartsAreShort(r.inputs);
    SplitsConcat(parts, []);
    assert Concat(parts) + [] == Concat(parts) && parts + [] == parts;
  }

  lemma ReadsAllInputs(r: StagedRequest)
    requires ValidRequest(r)
    ensures ReadInputs(RequestParts(r)[5..]) == Some(SeenInputs(r.inputs))
  {
    ReadsInputs(r.inputs, [], []);
    assert AllInputParts(r.inputs) + [] == AllInputParts(r.inputs) && SeenInputs(r.inputs) + [] == SeenInputs(r.inputs);
    assert RequestParts(r)[5..] == AllInputParts(r.inputs);
  }

  lemma ReadsHead(r: StagedRequest)
    requires ValidRequest(r)
    ensures FromBigEndian(HeadParts(r)[1]) == r.maxWidth
    ensures ReadPriority(HeadParts(r)[3]) == Some(r.priority)
    ensures r.availableAt.Some? ==> HeadParts(r)[4] != [] && FromSignedBytes(HeadParts(r)[4]) == r.availableAt.value
  {
    Powers();
    BigEndianReads(r.maxWidth, 4);
    if r.availableAt.Some? {
      var at := r.availableAt.value;
      BigEndianReads(if at < 0 then at + TWO_TO_128 else at, INSTANT_BYTES);
    }
    hide BigEndian, FromBigEndian, Power256;
  }

  /** The stream decodes to the request it was made from, all but the storage keys. */
  lemma RoundTrip(r: StagedRequest)
    requires ValidRequest(r)
    ensures Decode(Preimage(r)) == Some(Seen(r))
  {
    SplitsRequest(r);
    ReadsAllInputs(r);
    ReadsHead(r);
    assert forall k :: 0 <= k < 5 ==> RequestParts(r)[k] == HeadParts(r)[k];
    hide SplitParts, Preimage, AllInputParts, ReadInputs, BigEndian, FromBigEndian, FromSignedBytes, ReadPriority, SeenInputs;
  }

  /** Different requests never share a stream: the fingerprint compares everything but storage keys. */
  lemma SameStreamMeansSameRequest(a: StagedRequest, b: StagedRequest)
    requires ValidRequest(a) && ValidRequest(b)
    ensures Preimage(a) == Preimage(b) <==> Seen(a) == Seen(b)
  {
    RoundTrip(a);
    RoundTrip(b);
    if Seen(a) == Seen(b) {
      forall k | 0 <= k < |a.inputs|
        ensures a.inputs[k].(storageKey := []) == b.inputs[k].(storageKey := [])
      {
        assert SeenInputs(a.inputs)[k] == SeenInputs(b.inputs)[k];
      }
      SameInputParts(a.inputs, b.inputs);
    }
  }

  lemma {:induction false} SameInputParts(a: seq<StagedInput>, b: seq<StagedInput>)
    requires |a| == |b| && forall k :: 0 <= k < |a| ==> a[k].(storageKey := []) == b[k].(storageKey := [])
    ensures AllInputParts(a) == AllInputParts(b)
    decreases |a|
  {
    if a != [] {
      SameInputParts(a[..|a| - 1], b[..|b| - 1]);
    }
  }

  /** With a hash that does not collide on the two streams, a lookup under the key of an existing job
      finds that job exactly when the requests agree on everything but storage keys, and is a
      conflict otherwise. */
  lemma LookupComparesRequests(
      t: Tables, j: nat, owner: nat, key: string, a: StagedRequest, b: StagedRequest, hash: Bytes -> seq<int>)
    requires Inv(t) && j < |t.jobs| && Keyed(t.jobs[j], owner, key) && 1 <= |key| <= 128
    requires ValidRequest(a) && ValidRequest(b)
    requires t.jobs[j].idempotency.value.fingerprint == hash(Preimage(a))
    requires |hash(Preimage(b))| == 32
    requires hash(Preimage(a)) == hash(Preimage(b)) ==> Preimage(a) == Preimage(b)
    ensures FindIdempotent(t, owner, Idempotency(key, hash(Preimage(b))))
            == if Seen(a) == Seen(b) then Ok(Some(j)) else Err(IdempotencyConflict)
  {
    SameStreamMeansSameRequest(a, b);
    assert KeysFit(t.jobs);
    hide Inv, Preimage, Seen;
    var found := FindKey(t.jobs, |t.jobs|, owner, key);
    if found.Some? {
      assert SameRequest(t.jobs[found.value], t.jobs[j]);
    }
  }
}
