/** The in-memory object storage: multipart uploads, whose parts may arrive in any order and
    more than once, and range downloads. Upload ids are parameters. */
module MultipartStorages {
  import opened Common

  type Bytes = seq<bv8>

  type UploadId = nat

  /** The parts uploaded so far, by part number. */
  type Parts = map<int, Bytes>

  function Concat(chunks: seq<Bytes>): Bytes {
    if chunks == [] then [] else Concat(chunks[..|chunks| - 1]) + chunks[|chunks| - 1]
  }

  // ------------------------------------------------------------------
  // Merging parts
  // ------------------------------------------------------------------

  ghost predicate Sorted(s: seq<int>) {
    forall i, j :: 0 <= i < j < |s| ==> s[i] <= s[j]
  }

  function Insert(x: int, s: seq<int>): seq<int> {
    if s == [] || s[|s| - 1] <= x then s + [x] else Insert(x, s[..|s| - 1]) + [s[|s| - 1]]
  }

  /** The part numbers of a part list in ascending order. */
  function Sort(s: seq<int>): seq<int> {
    if s == [] then [] else Insert(s[|s| - 1], Sort(s[..|s| - 1]))
  }

  lemma MultisetOfLast(s: seq<int>)
    requires s != []
    ensures multiset(s) == multiset(s[..|s| - 1]) + multiset{s[|s| - 1]}
  {
    assert s == s[..|s| - 1] + [s[|s| - 1]];
  }

  lemma {:induction false} InsertAdds(x: int, s: seq<int>)
    ensures multiset(Insert(x, s)) == multiset(s) + multiset{x}
    decreases |s|
  {
    if s != [] && s[|s| - 1] > x {
      InsertAdds(x, s[..|s| - 1]);
      MultisetOfLast(s);
    }
  }

  lemma {:induction false} InsertKeepsBound(x: int, s: seq<int>, bound: int)
    requires x <= bound && forall i :: 0 <= i < |s| ==> s[i] <= bound
    ensures forall i :: 0 <= i < |Insert(x, s)| ==> Insert(x, s)[i] <= bound
    decreases |s|
  {
    if s != [] && s[|s| - 1] > x {
      InsertKeepsBound(x, s[..|s| - 1], bound);
    }
  }

  lemma {:induction false} InsertKeepsSorted(x: int, s: seq<int>)
    requires Sorted(s)
    ensures Sorted(Insert(x, s))
    decreases |s|
  {
    if s != [] && s[|s| - 1] > x {
      InsertKeepsSorted(x, s[..|s| - 1]);
      InsertKeepsBound(x, s[..|s| - 1], s[|s| - 1]);
    }
  }

  lemma {:induction false} SortSorts(s: seq<int>)
    ensures Sorted(Sort(s)) && multiset(Sort(s)) == multiset(s)
    decreases |s|
  {
    if s != [] {
      hide Insert, Sorted;
      SortSorts(s[..|s| - 1]);
      InsertKeepsSorted(s[|s| - 1], Sort(s[..|s| - 1]));
      InsertAdds(s[|s| - 1], Sort(s[..|s| - 1]));
      MultisetOfLast(s);
    } else {
      assert Sort(s) == [];
    }
  }

  lemma LastIsLargest(s: seq<int>, x: int)
    requires Sorted(s) && x in multiset(s)
    ensures s != [] && x <= s[|s| - 1]
  {
    assert x in s;
  }

  lemma SameLength(s: seq<int>, t: seq<int>)
    requires multiset(s) == multiset(t)
    ensures |s| == |t|
  {
    assert |multiset(s)| == |s| && |multiset(t)| == |t|;
  }

  lemma PeelLast(s: seq<int>, t: seq<int>)
    requires s != [] && t != [] && multiset(s) == multiset(t) && s[|s| - 1] == t[|t| - 1]
    ensures multiset(s[..|s| - 1]) == multiset(t[..|t| - 1])
  {
    MultisetOfLast(s);
    MultisetOfLast(t);
    var x := s[|s| - 1];
    assert multiset(s[..|s| - 1]) == multiset(s) - multiset{x};
    assert multiset(t[..|t| - 1]) == multiset(t) - multiset{x};
  }

  lemma SortedPrefix(s: seq<int>)
    requires Sorted(s) && s != []
    ensures Sorted(s[..|s| - 1])
  {
  }

  lemma {:induction false} SortedIsUnique(s: seq<int>, t: seq<int>)
    requires Sorted(s) && Sorted(t) && multiset(s) == multiset(t)
    ensures s == t
    decreases |s|
  {
    hide Sorted;
    SameLength(s, t);
    if s != [] {
      MultisetOfLast(s);
      MultisetOfLast(t);
      LastIsLargest(s, t[|t| - 1]);
      LastIsLargest(t, s[|s| - 1]);
      PeelLast(s, t);
      SortedPrefix(s);
      SortedPrefix(t);
      SortedIsUnique(s[..|s| - 1], t[..|t| - 1]);
      assert s == s[..|s| - 1] + [s[|s| - 1]] && t == t[..|t| - 1] + [t[|t| - 1]];
    }
  }

  /** A listed part that was never uploaded counts as empty. */
  function ChunkOf(parts: Parts, n: int): Bytes {
    if n in parts then parts[n] else []
  }

  function ChunksOf(parts: Parts, numbers: seq<int>): seq<Bytes> {
    seq(|numbers|, i requires 0 <= i < |numbers| => ChunkOf(parts, numbers[i]))
  }

  /** `mergeMultipartParts` */
  function Merge(list: seq<int>, parts: Parts): Bytes {
    Concat(ChunksOf(parts, Sort(list)))
  }

  // ------------------------------------------------------------------
  // The storage as a step system
  // ------------------------------------------------------------------

  /** The key of the `objects` map. */
  function StoreKey(bucket: string, key: string): string {
    bucket + ['\0'] + key
  }

  datatype State = State(objects: map<string, Bytes>, uploads: map<UploadId, Parts>)

  datatype Step =
    | Upload(bucket: string, key: string, body: Bytes)
    | Delete(bucket: string, key: string)
    | Initiate(id: UploadId)
    | UploadPart(id: UploadId, number: int, chunk: Bytes)
    | Complete(bucket: string, key: string, id: UploadId, list: seq<int>)
    | Abort(id: UploadId)
    | Clear

  function Next(s: State, step: Step): State {
    match step
    case Upload(bucket, key, body) => s.(objects := s.objects[StoreKey(bucket, key) := body])
    case Delete(bucket, key) => s.(objects := s.objects - {StoreKey(bucket, key)})
    case Initiate(id) => s.(uploads := s.uploads[id := map[]])
    case UploadPart(id, number, chunk) =>
      if id in s.uploads then s.(uploads := s.uploads[id := s.uploads[id][number := chunk]]) else s
    case Complete(bucket, key, id, list) =>
      if id in s.uploads then
        State(s.objects[StoreKey(bucket, key) := Merge(list, s.uploads[id])], s.uploads - {id})
      else s
    case Abort(id) => s.(uploads := s.uploads - {id})
    case Clear => State(map[], map[])
  }

  function Run(s: State, steps: seq<Step>): State {
    if steps == [] then s else Next(Run(s, steps[..|steps| - 1]), steps[|steps| - 1])
  }

  /** The step may start, end or remove the upload, or everything. */
  predicate Interrupts(step: Step, id: UploadId) {
    match step
    case Initiate(other) => other == id
    case Complete(_, _, other, _) => other == id
    case Abort(other) => other == id
    case Clear => true
    case _ => false
  }

  /** The step may change the stored object. */
  predicate Overwrites(step: Step, storeKey: string) {
    match step
    case Upload(bucket, key, _) => StoreKey(bucket, key) == storeKey
    case Delete(bucket, key) => StoreKey(bucket, key) == storeKey
    case Complete(bucket, key, _, _) => StoreKey(bucket, key) == storeKey
    case Clear => true
    case _ => false
  }

  /** The latest chunk uploaded under a part number, if any. */
  function LatestChunk(steps: seq<Step>, id: UploadId, number: int): Option<Bytes> {
    if steps == [] then None
    else
      var last := steps[|steps| - 1];
      if last.UploadPart? && last.id == id && last.number == number then Some(last.chunk)
      else LatestChunk(steps[..|steps| - 1], id, number)
  }

  lemma {:induction false} PartsAreTheLatestChunks(s: State, id: UploadId, steps: seq<Step>, number: int)
    requires id in s.uploads && s.uploads[id] == map[]
    requires forall i :: 0 <= i < |steps| ==> !Interrupts(steps[i], id)
    ensures id in Run(s, steps).uploads
    ensures ChunkOf(Run(s, steps).uploads[id], number) == LatestChunk(steps, id, number).GetOr([])
    decreases |steps|
  {
    if steps != [] {
      hide Merge, StoreKey;
      PartsAreTheLatestChunks(s, id, steps[..|steps| - 1], number);
      assert !Interrupts(steps[|steps| - 1], id);
    }
  }

  lemma {:induction false} ObjectIsKept(s: State, steps: seq<Step>, storeKey: string)
    requires storeKey in s.objects
    requires forall i :: 0 <= i < |steps| ==> !Overwrites(steps[i], storeKey)
    ensures storeKey in Run(s, steps).objects && Run(s, steps).objects[storeKey] == s.objects[storeKey]
    decreases |steps|
  {
    if steps != [] {
      hide Merge, StoreKey;
      ObjectIsKept(s, steps[..|steps| - 1], storeKey);
      assert !Overwrites(steps[|steps| - 1], storeKey);
    }
  }

  /** What the steps say of an upload: open from its start until it is completed or aborted. */
  predicate IsOpen(steps: seq<Step>, id: UploadId) {
    steps != [] &&
    var last := steps[|steps| - 1];
    last == Initiate(id) || (!Interrupts(last, id) && IsOpen(steps[..|steps| - 1], id))
  }

  lemma {:induction false} OpenUploadsAreKnown(steps: seq<Step>, id: UploadId)
    ensures id in Run(State(map[], map[]), steps).uploads <==> IsOpen(steps, id)
    decreases |steps|
  {
    if steps != [] {
      OpenUploadsAreKnown(steps[..|steps| - 1], id);
      hide Merge, StoreKey;
    }
  }

  /** Since its start, the latest chunk of an open upload. */
  function LatestSinceStart(steps: seq<Step>, id: UploadId, number: int): Option<Bytes> {
    if steps == [] || steps[|steps| - 1] == Initiate(id) then None
    else
      var last := steps[|steps| - 1];
      if last.UploadPart? && last.id == id && last.number == number then Some(last.chunk)
      else LatestSinceStart(steps[..|steps| - 1], id, number)
  }

  lemma {:induction false} OpenUploadsHoldTheirChunks(steps: seq<Step>, id: UploadId, number: int)
    requires IsOpen(steps, id)
    ensures id in Run(State(map[], map[]), steps).uploads
    ensures var parts := Run(State(map[], map[]), steps).uploads[id];
            LatestSinceStart(steps, id, number) == if number in parts then Some(parts[number]) else None
    decreases |steps|
  {
    OpenUploadsAreKnown(steps, id);
    if steps[|steps| - 1] != Initiate(id) {
      OpenUploadsHoldTheirChunks(steps[..|steps| - 1], id, number);
      hide Merge, StoreKey;
    }
  }

  /** What the steps say is stored: the body last uploaded under the key, or the parts of the
      upload last completed under it, in the order of their numbers; and nothing once it has
      been deleted or everything cleared. A completion without an open upload stores nothing. */
  function Stored(steps: seq<Step>, storeKey: string): Option<Bytes> {
    if steps == [] then None
    else
      var init, last := steps[..|steps| - 1], steps[|steps| - 1];
      match last
      case Upload(bucket, key, body) =>
        if StoreKey(bucket, key) == storeKey then Some(body) else Stored(init, storeKey)
      case Delete(bucket, key) => if StoreKey(bucket, key) == storeKey then None else Stored(init, storeKey)
      case Complete(bucket, key, id, list) =>
        if StoreKey(bucket, key) == storeKey && IsOpen(init, id)
        then Some(Concat(LatestChunks(init, id, Sort(list)))) else Stored(init, storeKey)
      case Clear => None
      case _ => Stored(init, storeKey)
  }

  function LatestChunks(steps: seq<Step>, id: UploadId, numbers: seq<int>): seq<Bytes> {
    seq(|numbers|, i requires 0 <= i < |numbers| => LatestSinceStart(steps, id, numbers[i]).GetOr([]))
  }

  lemma MergeOfOpenUpload(steps: seq<Step>, id: UploadId, list: seq<int>)
    requires IsOpen(steps, id)
    ensures id in Run(State(map[], map[]), steps).uploads
    ensures Merge(list, Run(State(map[], map[]), steps).uploads[id]) == Concat(LatestChunks(steps, id, Sort(list)))
  {
    OpenUploadsAreKnown(steps, id);
    var parts, numbers := Run(State(map[], map[]), steps).uploads[id], Sort(list);
    hide Run, IsOpen, Sort, LatestSinceStart;
    forall i | 0 <= i < |numbers| ensures LatestChunks(steps, id, numbers)[i] == ChunksOf(parts, numbers)[i] {
      OpenUploadsHoldTheirChunks(steps, id, numbers[i]);
    }
    assert LatestChunks(steps, id, numbers) == ChunksOf(parts, numbers);
  }

  /** Every run from the start leaves under each key exactly what its steps say is stored. */
  lemma {:induction false} ObjectsAreWhatWasStored(steps: seq<Step>, storeKey: string)
    ensures var objects := Run(State(map[], map[]), steps).objects;
            Stored(steps, storeKey) == if storeKey in objects then Some(objects[storeKey]) else None
    decreases |steps|
  {
    if steps != [] {
      var init, last := steps[..|steps| - 1], steps[|steps| - 1];
      ObjectsAreWhatWasStored(init, storeKey);
      hide Merge, StoreKey, IsOpen, Sort, LatestChunks, Concat;
      if last.Complete? {
        OpenUploadsAreKnown(init, last.id);
        if IsOpen(init, last.id) {
          MergeOfOpenUpload(init, last.id, last.list);
        }
      }
    }
  }

  /** Distinct part numbers, in ascending order. */
  ghost predicate Ascending(numbers: seq<int>) {
    forall i, j :: 0 <= i < j < |numbers| ==> numbers[i] < numbers[j]
  }

  lemma MergeInAnyOrder(list: seq<int>, numbers: seq<int>, parts: Parts, chunks: seq<Bytes>)
    requires Ascending(numbers) && multiset(list) == multiset(numbers) && |chunks| == |numbers|
    requires forall i :: 0 <= i < |numbers| ==> ChunkOf(parts, numbers[i]) == chunks[i]
    ensures Merge(list, parts) == Concat(chunks)
  {
    SortSorts(list);
    SortedIsUnique(Sort(list), numbers);
    assert ChunksOf(parts, numbers) == chunks;
  }

  /** Split a body into chunks with ascending part numbers. From any state, start an upload;
      send the parts in any order, again and again, among any other traffic, as long as the
      latest chunk under each number is the right one; complete it with the part list in any
      order; then let any traffic follow that does not write the same object. The object is
      the body. */
  lemma MultipartRoundTrip(s: State, id: UploadId, sending: seq<Step>, bucket: string, key: string,
                           list: seq<int>, numbers: seq<int>, chunks: seq<Bytes>, after: seq<Step>)
    requires forall i :: 0 <= i < |sending| ==> !Interrupts(sending[i], id)
    requires Ascending(numbers) && |chunks| == |numbers| && multiset(list) == multiset(numbers)
    requires forall i :: 0 <= i < |numbers| ==> LatestChunk(sending, id, numbers[i]) == Some(chunks[i])
    requires forall i :: 0 <= i < |after| ==> !Overwrites(after[i], StoreKey(bucket, key))
    ensures var sent := Run(Next(s, Initiate(id)), sending);
            var stored := Run(Next(sent, Complete(bucket, key, id, list)), after);
            StoreKey(bucket, key) in stored.objects &&
            stored.objects[StoreKey(bucket, key)] == Concat(chunks)
  {
    hide Interrupts, Overwrites, StoreKey, Run, Merge, LatestChunk;
    var started := Next(s, Initiate(id));
    var sent := Run(started, sending);
    PartsAreTheLatestChunks(started, id, sending, 0);
    forall i | 0 <= i < |numbers| ensures ChunkOf(sent.uploads[id], numbers[i]) == chunks[i] {
      PartsAreTheLatestChunks(started, id, sending, numbers[i]);
    }
    MergeInAnyOrder(list, numbers, sent.uploads[id], chunks);
    ObjectIsKept(Next(sent, Complete(bucket, key, id, list)), after, StoreKey(bucket, key));
  }

  // ------------------------------------------------------------------
  // Store keys
  // ------------------------------------------------------------------

  /** Some object of one bucket and some object of another share a store key exactly when
      one bucket name, closed by the separator, begins with the other closed by it. */
  lemma BucketsCollideExactlyWhen(b: string, c: string)
    ensures (exists k, l :: StoreKey(b, k) == StoreKey(c, l)) <==> b + ['\0'] <= c + ['\0'] || c + ['\0'] <= b + ['\0']
  {
    var p, q := b + ['\0'], c + ['\0'];
    if p <= q {
      assert StoreKey(b, q[|p|..]) == StoreKey(c, []);
    } else if q <= p {
      assert StoreKey(b, []) == StoreKey(c, p[|q|..]);
    }
    forall k, l | StoreKey(b, k) == StoreKey(c, l) ensures p <= q || q <= p {
      assert StoreKey(b, k)[..|p|] == p && StoreKey(c, l)[..|q|] == q;
      if |p| <= |q| {
        assert q[..|p|] == p;
      } else {
        assert p[..|q|] == q;
      }
    }
  }

  lemma ClosedPrefix(b: string, c: string)
    requires '\0' !in c && b + ['\0'] <= c + ['\0']
    ensures b == c
  {
    var p, q := b + ['\0'], c + ['\0'];
    assert p[|b|] == '\0' && q[|b|] == p[|b|];
    assert b == p[..|b|] && c == q[..|c|];
  }

  /** In particular two buckets whose names lack the separator character never collide. */
  lemma PlainBucketsNeverCollide(b: string, k: string, c: string, l: string)
    requires '\0' !in b && '\0' !in c && StoreKey(b, k) == StoreKey(c, l)
    ensures b == c && k == l
  {
    BucketsCollideExactlyWhen(b, c);
    if b + ['\0'] <= c + ['\0'] {
      ClosedPrefix(b, c);
    } else {
      ClosedPrefix(c, b);
    }
    assert StoreKey(b, k)[|b| + 1..] == k && StoreKey(c, l)[|c| + 1..] == l;
  }

  // ------------------------------------------------------------------
  // Ranges
  // ------------------------------------------------------------------

  /** A `subarray` bound: a negative one counts from the end, and both are clamped. */
  function Bound(length: nat, x: int): nat {
    if x < 0 then Max(length + x, 0) else Min(x, length)
  }

  function Subarray(body: Bytes, start: int, end: int): Bytes {
    var from, to := Bound(|body|, start), Bound(|body|, end);
    if from < to then body[from..to] else []
  }

  datatype Range = Range(start: int, end: int)

  function RangeOf(body: Bytes, range: Option<Range>): Bytes {
    match range
    case None => body
    case Some(r) => Subarray(body, r.start, r.end + 1)
  }

  /** The ranges between successive cuts, each up to just before the next. */
  function Pieces(body: Bytes, cuts: seq<nat>): seq<Bytes> {
    if |cuts| < 2 then []
    else Pieces(body, cuts[..|cuts| - 1]) + [RangeOf(body, Some(Range(cuts[|cuts| - 2], cuts[|cuts| - 1] as int - 1)))]
  }

  ghost predicate InOrder(cuts: seq<nat>) {
    forall i, j :: 0 <= i < j < |cuts| ==> cuts[i] <= cuts[j]
  }

  lemma OneRange(body: Bytes, from: nat, to: nat)
    requires from <= to
    ensures Bound(|body|, from) <= Bound(|body|, to)
    ensures RangeOf(body, Some(Range(from, to as int - 1))) == body[Bound(|body|, from)..Bound(|body|, to)]
  {
  }

  lemma JoinSlices(body: Bytes, a: nat, b: nat, c: nat)
    requires a <= b <= c <= |body|
    ensures body[a..b] + body[b..c] == body[a..c]
  {
  }

  lemma ConcatSnoc(chunks: seq<Bytes>, last: Bytes)
    ensures Concat(chunks + [last]) == Concat(chunks) + last
  {
    assert (chunks + [last])[..|chunks|] == chunks;
  }

  /** Adjacent range downloads join to the stretch they cover, also beyond the body's end. */
  lemma {:induction false} AdjacentRangesJoin(body: Bytes, cuts: seq<nat>)
    requires cuts != [] && InOrder(cuts)
    ensures var from, to := Bound(|body|, cuts[0]), Bound(|body|, cuts[|cuts| - 1]);
            from <= to <= |body| && Concat(Pieces(body, cuts)) == body[from..to]
    decreases |cuts|
  {
    if |cuts| >= 2 {
      var init := cuts[..|cuts| - 1];
      AdjacentRangesJoin(body, init);
      var a, b, c := cuts[0], cuts[|cuts| - 2], cuts[|cuts| - 1];
      assert b <= c;
      hide RangeOf, InOrder;
      var pieces, last := Pieces(body, init), RangeOf(body, Some(Range(b, c as int - 1)));
      assert Pieces(body, cuts) == pieces + [last];
      hide Pieces, Concat, Bound;
      ConcatSnoc(pieces, last);
      OneRange(body, b, c);
      JoinSlices(body, Bound(|body|, a), Bound(|body|, b), Bound(|body|, c));
    }
  }

  /** Ranges from the start to the end or beyond give back the whole body. */
  lemma RangesGiveBackTheBody(body: Bytes, cuts: seq<nat>)
    requires cuts != [] && InOrder(cuts) && cuts[0] == 0 && cuts[|cuts| - 1] >= |body|
    ensures Concat(Pieces(body, cuts)) == RangeOf(body, None)
  {
    AdjacentRangesJoin(body, cuts);
    assert body[0..|body|] == body;
  }

  /** Bounds below zero count from the end, and stop at the start. */
  lemma NegativeBoundsCountFromTheEnd(body: Bytes, x: int, n: int)
    requires n > 0
    ensures Subarray(body, -n, x) == Subarray(body, Max(|body| - n, 0), x)
    ensures Subarray(body, x, -n) == Subarray(body, x, Max(|body| - n, 0))
  {
  }

  // ------------------------------------------------------------------
  // The adapter object
  // ------------------------------------------------------------------

  datatype Result<+T> = Ok(value: T) | StorageNotFoundError(bucket: string, key: string)

  class InMemoryStorageAdapter {
    var objects: map<string, Bytes>
    var multiparts: map<UploadId, Parts>

    ghost function Model(): State
      reads this
    {
      State(objects, multiparts)
    }

    constructor ()
      ensures Model() == State(map[], map[])
    {
      objects, multiparts := map[], map[];
    }

    method Upload(bucket: string, key: string, body: Bytes)
      modifies this
      ensures Model() == Next(old(Model()), Step.Upload(bucket, key, body))
    {
      objects := objects[StoreKey(bucket, key) := body];
    }

    method Download(bucket: string, key: string, range: Option<Range>) returns (r: Result<Bytes>)
      ensures r == if StoreKey(bucket, key) in objects then Ok(RangeOf(objects[StoreKey(bucket, key)], range))
                   else StorageNotFoundError(bucket, key)
    {
      var storeKey := StoreKey(bucket, key);
      if storeKey !in objects {
        return StorageNotFoundError(bucket, key);
      }
      if range.None? {
        return Ok(objects[storeKey]);
      }
      return Ok(Subarray(objects[storeKey], range.value.start, range.value.end + 1));
    }

    method Delete(bucket: string, key: string)
      modifies this
      ensures Model() == Next(old(Model()), Step.Delete(bucket, key))
    {
      objects := objects - {StoreKey(bucket, key)};
    }

    method InitiateMultipartUpload(id: UploadId)
      modifies this
      ensures Model() == Next(old(Model()), Initiate(id))
    {
      multiparts := multiparts[id := map[]];
    }

    method UploadPart(bucket: string, key: string, id: UploadId, number: int, chunk: Bytes) returns (r: Result<int>)
      modifies this
      ensures Model() == Next(old(Model()), Step.UploadPart(id, number, chunk))
      ensures r == if id in old(multiparts) then Ok(number) else StorageNotFoundError(bucket, key)
    {
      if id !in multiparts {
        return StorageNotFoundError(bucket, key);
      }
      multiparts := multiparts[id := multiparts[id][number := chunk]];
      return Ok(number);
    }

    /** Returns the size of the stored object. */
    method CompleteMultipartUpload(bucket: string, key: string, id: UploadId, list: seq<int>) returns (r: Result<nat>)
      modifies this
      ensures Model() == Next(old(Model()), Complete(bucket, key, id, list))
      ensures r == if id in old(multiparts) then Ok(|objects[StoreKey(bucket, key)]|)
                   else StorageNotFoundError(bucket, key)
    {
      if id !in multiparts {
        return StorageNotFoundError(bucket, key);
      }
      var merged := MergeParts(list, multiparts[id]);
      objects := objects[StoreKey(bucket, key) := merged];
      multiparts := multiparts - {id};
      return Ok(|merged|);
    }

    static method MergeParts(list: seq<int>, parts: Parts) returns (merged: Bytes)
      ensures merged == Merge(list, parts)
    {
      var sorted := Sort(list);
      merged := [];
      for i := 0 to |sorted|
        invariant merged == Concat(ChunksOf(parts, sorted[..i]))
      {
        var chunk := ChunkOf(parts, sorted[i]);
        var chunks := ChunksOf(parts, sorted[..i + 1]);
        assert chunks[..i] == ChunksOf(parts, sorted[..i]) && chunks[i] == chunk;
        merged := merged + chunk;
      }
      assert sorted[..|sorted|] == sorted;
    }

    method AbortMultipartUpload(id: UploadId)
      modifies this
      ensures Model() == Next(old(Model()), Abort(id))
    {
      multiparts := multiparts - {id};
    }

    method Clear()
      modifies this
      ensures Model() == Next(old(Model()), Step.Clear)
    {
      objects, multiparts := map[], map[];
    }
  }
}
