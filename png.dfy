/** PNG dimensions, the cache of pending and finished reads, and the batch
    fetch that drains a list of locations with four workers.

    A PNG file starts with the 8-byte signature (section 5.2 of the PNG
    specification, ISO/IEC 15948), then the first chunk's 4-byte length and
    4-byte type (section 5.3); the first chunk is IHDR, whose data starts with
    the width and the height as big-endian 4-byte integers (section 11.2.2).
    The mod skips the first 16 bytes without looking at them and reads the
    two integers that follow. */
module Pngs {
  import opened Jvm
  import opened Promises

  /** A resource location, `namespace:path`. */
  type Location = string

  newtype Byte = x: int | 0 <= x < 256

  /** An image usable as a background: where it is and its size in pixels. */
  datatype Png = Png(location: Location, width: int, height: int)

  /** `DIMENSION_LIMITS = 4..32767`, both ends included. */
  const DimensionMin: int := 4
  const DimensionMax: int := 32767

  predicate InDimensionLimits(n: int) {
    DimensionMin <= n <= DimensionMax
  }

  /** `DataInputStream.readInt` at `offset`: four bytes, most significant
      first, as a two's-complement `int`. */
  function ReadInt(bytes: seq<Byte>, offset: nat): (r: int)
    requires offset + 4 <= |bytes|
    ensures IsInt(r)
  {
    Wrap(((bytes[offset] as int * 256 + bytes[offset + 1] as int) * 256
          + bytes[offset + 2] as int) * 256 + bytes[offset + 3] as int)
  }

  /** Bytes skipped before the width (`skipNBytes(16)`). */
  const Skipped: nat := 16

  /** `read(location)`, given what opening the resource gave: its bytes, or
      the exception `open` threw. A stream that ends before the height has
      been read is an error; a dimension outside the limits gives null. */
  function Read(location: Location, contents: Result<seq<Byte>>): (r: Result<Option<Png>>)
    ensures contents.Failure? ==> r == Failure(contents.exception)
    ensures contents.Success? ==> (r.Failure? <==> |contents.value| < Skipped + 8)
    ensures contents.Success? && r.Failure? ==> r.exception == EndOfFile
    ensures r.Success? ==>
              var width := ReadInt(contents.value, Skipped);
              var height := ReadInt(contents.value, Skipped + 4);
              && (r.value.Some? <==> InDimensionLimits(width) && InDimensionLimits(height))
              && (r.value.Some? ==> r.value.value == Png(location, width, height))
  {
    match contents
    case Failure(e) => Failure(e)
    case Success(bytes) =>
      if |bytes| < Skipped + 8 then Failure(EndOfFile)
      else
        var width := ReadInt(bytes, Skipped);
        var height := ReadInt(bytes, Skipped + 4);
        if !InDimensionLimits(width) then Success(None)
        else if !InDimensionLimits(height) then Success(None)
        else Success(Some(Png(location, width, height)))
  }

  /** The four big-endian bytes of an `int` (what `DataOutputStream.writeInt`
      writes, and what a PNG stores). */
  function EncodeInt(x: int): (b: seq<Byte>)
    requires IsInt(x)
    ensures |b| == 4
  {
    var u := if x < 0 then x + Two32 else x;
    var a := u / 256;
    var c := a / 256;
    [(c / 256) as Byte, (c % 256) as Byte, (a % 256) as Byte, (u % 256) as Byte]
  }

  /** Reading an `int` gives back the one that was encoded. */
  lemma ReadIntEncodeInt(bytes: seq<Byte>, offset: nat, x: int)
    requires IsInt(x) && offset + 4 <= |bytes|
    requires bytes[offset..offset + 4] == EncodeInt(x)
    ensures ReadInt(bytes, offset) == x
  {
    var u := if x < 0 then x + Two32 else x;
    var a := u / 256;
    var c := a / 256;
    assert bytes[offset] as int == c / 256 by { assert bytes[offset] == bytes[offset..offset + 4][0]; }
    assert bytes[offset + 1] as int == c % 256 by { assert bytes[offset + 1] == bytes[offset..offset + 4][1]; }
    assert bytes[offset + 2] as int == a % 256 by { assert bytes[offset + 2] == bytes[offset..offset + 4][2]; }
    assert bytes[offset + 3] as int == u % 256 by { assert bytes[offset + 3] == bytes[offset..offset + 4][3]; }
    assert ((c / 256 * 256 + c % 256) * 256 + a % 256) * 256 + u % 256 == u;
  }

  /** Whatever the first 16 bytes are and whatever follows, a stream whose
      bytes 16..23 encode `width` and `height` reads as exactly that size,
      or as null when a dimension is outside the limits. */
  lemma {:induction false} ReadDimensions(location: Location, preamble: seq<Byte>, width: int, height: int, rest: seq<Byte>)
    requires |preamble| == Skipped && IsInt(width) && IsInt(height)
    ensures Read(location, Success(preamble + EncodeInt(width) + EncodeInt(height) + rest))
         == Success(if InDimensionLimits(width) && InDimensionLimits(height)
                    then Some(Png(location, width, height)) else None)
  {
    var bytes := preamble + EncodeInt(width) + EncodeInt(height) + rest;
    assert bytes[Skipped..Skipped + 4] == EncodeInt(width);
    assert bytes[Skipped + 4..Skipped + 8] == EncodeInt(height);
    ReadIntEncodeInt(bytes, Skipped, width);
    ReadIntEncodeInt(bytes, Skipped + 4, height);
  }

  /** The PNG signature and the start of the IHDR chunk: its length (13) and
      its type. These are the 16 bytes a well-formed file has before its
      width; `read` does not check them. */
  const Signature: seq<Byte> := [137, 80, 78, 71, 13, 10, 26, 10]
  const IhdrStart: seq<Byte> := [0, 0, 0, 13, 73, 72, 68, 82]

  /** A well-formed PNG with a usable size reads as that size. */
  lemma WellFormedPng(location: Location, width: int, height: int, rest: seq<Byte>)
    requires InDimensionLimits(width) && InDimensionLimits(height)
    ensures Read(location, Success(Signature + IhdrStart + EncodeInt(width) + EncodeInt(height) + rest))
         == Success(Some(Png(location, width, height)))
  {
    ReadDimensions(location, Signature + IhdrStart, width, height, rest);
  }

  /** The cache of reads, one promise per location. */
  class PngCache {
    var cache: map<Location, Promise<Option<Png>>>

    constructor ()
      ensures cache == map[]
    {
      cache := map[];
    }

    /** The test in `get(location)`: an existing entry is kept only when it
        has completed with a non-null PNG; a pending entry, a null result and
        a failure all count as "nothing" (`promise.result?.getOrNull()`). */
    static predicate Keeps(entry: Promise<Option<Png>>)
      reads entry
    {
      var result := entry.ResultOrNull();
      result.Some? && result.value.GetOrNull().Some? && result.value.value.Some?
    }

    /** `get(location)`, as written: the compute on the map keeps an entry
        completed with a PNG and replaces anything else, including an entry
        still pending, by a new read started on the I/O executor. Every other
        key is left as it was. */
    method Get(location: Location) returns (p: Promise<Option<Png>>)
      modifies this
      ensures cache == old(cache)[location := p]
      ensures location in old(cache) && Keeps(old(cache)[location]) ==> p == old(cache)[location]
      ensures !(location in old(cache) && Keeps(old(cache)[location])) ==> fresh(p) && p.state == Pending
    {
      var promise: Option<Promise<Option<Png>>> := if location in cache then Some(cache[location]) else None;
      if promise.None? || !Keeps(promise.value) {
        p := new Promise.Incomplete();
      } else {
        p := promise.value;
      }
      cache := cache[location := p];
    }

    /** `get(location)` as its comment describes it: an entry still pending
        is shared, and only a missing entry or one that completed with null or
        a failure is replaced by a new read. */
    method GetDeduplicated(location: Location) returns (p: Promise<Option<Png>>)
      modifies this
      ensures cache == old(cache)[location := p]
      ensures location in old(cache) && (!old(cache)[location].Completed() || Keeps(old(cache)[location]))
              ==> p == old(cache)[location]
      ensures !(location in old(cache) && (!old(cache)[location].Completed() || Keeps(old(cache)[location])))
              ==> fresh(p) && p.state == Pending
    {
      var promise: Option<Promise<Option<Png>>> := if location in cache then Some(cache[location]) else None;
      if promise.None? || (promise.value.Completed() && !Keeps(promise.value)) {
        p := new Promise.Incomplete();
      } else {
        p := promise.value;
      }
      cache := cache[location := p];
    }
  }

  /** The I/O executor runs `read(location)` for a promise `get` created and
      completes it with what the read gave (its value, or its exception). */
  method RunRead(p: Promise<Option<Png>>, location: Location, contents: Result<seq<Byte>>)
    modifies p
    ensures p.state == if old(p.state).Pending? then Done(Read(location, contents)) else old(p.state)
  {
    var _ := p.Complete(Read(location, contents));
  }

  /** Two `get` calls for a location whose first read has not finished: as
      written, the second call starts a second read. */
  method DuplicateReadWhilePending(location: Location)
    returns (first: Promise<Option<Png>>, second: Promise<Option<Png>>)
    ensures first != second
    ensures first.state == Pending && second.state == Pending
  {
    var c := new PngCache();
    first := c.Get(location);
    second := c.Get(location);
  }

  /** The same two calls against the deduplicating `get`: one shared read. */
  method SharedReadWhilePending(location: Location)
    returns (first: Promise<Option<Png>>, second: Promise<Option<Png>>)
    ensures first == second && first.state == Pending
  {
    var c := new PngCache();
    first := c.GetDeduplicated(location);
    second := c.GetDeduplicated(location);
  }

  /** A read that found a PNG is never repeated, and one that found nothing
      or failed is: the cache is not poisoned by a bad read. */
  method RetryAfterRead(location: Location, contents: Result<seq<Byte>>)
    returns (first: Promise<Option<Png>>, second: Promise<Option<Png>>)
    ensures first.state == Done(Read(location, contents))
    ensures first == second <==> Read(location, contents).Success? && Read(location, contents).value.Some?
  {
    var c := new PngCache();
    first := c.Get(location);
    RunRead(first, location, contents);
    second := c.Get(location);
  }

  /** The number of workers `get(locations)` starts. */
  const Workers: nat := 4

  /** The shared iterator over the locations; a claim is made under the lock. */
  class LocationCursor {
    const locations: seq<Location>
    var next: nat

    ghost predicate Valid()
      reads this
    {
      next <= |locations|
    }

    constructor (locations: seq<Location>)
      ensures Valid() && this.locations == locations && next == 0
    {
      this.locations := locations;
      next := 0;
    }

    /** `if (iterator.hasNext()) iterator.next() else break`: the next
        unclaimed location, or nothing once every one has been claimed. */
    method Claim() returns (location: Option<Location>)
      requires Valid()
      modifies this
      ensures Valid()
      ensures old(next) < |locations| ==> location == Some(locations[old(next)]) && next == old(next) + 1
      ensures old(next) == |locations| ==> location.None? && next == old(next)
    {
      if next < |locations| {
        location := Some(locations[next]);
        next := next + 1;
      } else {
        location := None;
      }
    }
  }

  /** `MutableList.shuffle()`: from the last index down to 1, swap with an
      index drawn below it; `random(i)` is the draw for index `i`. */
  method Shuffle<T>(a: array<T>, random: nat -> nat)
    modifies a
    ensures multiset(a[..]) == old(multiset(a[..]))
  {
    var i: int := a.Length - 1;
    while i >= 1
      invariant -1 <= i < a.Length
      invariant multiset(a[..]) == old(multiset(a[..]))
    {
      var j := random(i) % (i + 1);
      a[i], a[j] := a[j], a[i];
      i := i - 1;
    }
  }

  /** One interleaving of the workers: claim `k` was made by worker
      `owner[k]`, and awaiting its read gave `outcomes[k]`. A worker whose
      read failed makes no further claim, and the claims stop before the end
      of the list only when every worker has failed. */
  predicate ValidSchedule(n: nat, owner: seq<nat>, outcomes: seq<Result<Option<Png>>>) {
    && |outcomes| == |owner| <= n
    && (forall k | 0 <= k < |owner| :: owner[k] < Workers)
    && (forall k, l | 0 <= k < l < |owner| && owner[k] == owner[l] :: outcomes[k].Success?)
    && (|owner| < n ==> forall w | 0 <= w < Workers :: FailedClaim(owner, outcomes, w, |owner|))
  }

  /** One of worker `w`'s first `k` claims failed. */
  predicate FailedClaim(owner: seq<nat>, outcomes: seq<Result<Option<Png>>>, w: nat, k: nat)
    requires k <= |owner| == |outcomes|
  {
    exists j | 0 <= j < k :: owner[j] == w && outcomes[j].Failure?
  }

  /** The locations worker `w` claimed among the first `k` claims, in order. */
  function ClaimedBy(locations: seq<Location>, owner: seq<nat>, w: nat, k: nat): seq<Location>
    requires k <= |owner| <= |locations|
  {
    if k == 0 then []
    else ClaimedBy(locations, owner, w, k - 1) + (if owner[k - 1] == w then [locations[k - 1]] else [])
  }

  /** The non-null PNGs worker `w` collected among the first `k` claims. */
  function Collected(owner: seq<nat>, outcomes: seq<Result<Option<Png>>>, w: nat, k: nat): seq<Png>
    requires k <= |owner| == |outcomes|
  {
    if k == 0 then []
    else Collected(owner, outcomes, w, k - 1)
         + (if owner[k - 1] == w && outcomes[k - 1].Success? && outcomes[k - 1].value.Some?
            then [outcomes[k - 1].value.value] else [])
  }

  /** The exception that ended worker `w`, if one of its first `k` claims failed. */
  function FailureOf(owner: seq<nat>, outcomes: seq<Result<Option<Png>>>, w: nat, k: nat): Option<Throwable>
    requires k <= |owner| == |outcomes|
  {
    if k == 0 then None
    else if owner[k - 1] == w && outcomes[k - 1].Failure? then Some(outcomes[k - 1].exception)
    else FailureOf(owner, outcomes, w, k - 1)
  }

  /** A worker has failed iff one of its claims failed. */
  lemma {:induction false} FailureOfIffFailedClaim(owner: seq<nat>, outcomes: seq<Result<Option<Png>>>, w: nat, k: nat)
    requires k <= |owner| == |outcomes|
    ensures FailureOf(owner, outcomes, w, k).Some? <==> FailedClaim(owner, outcomes, w, k)
  {
    if k > 0 {
      FailureOfIffFailedClaim(owner, outcomes, w, k - 1);
      if owner[k - 1] == w && outcomes[k - 1].Failure? {
        assert FailedClaim(owner, outcomes, w, k);
      } else if FailedClaim(owner, outcomes, w, k) {
        var j :| 0 <= j < k && owner[j] == w && outcomes[j].Failure?;
        assert FailedClaim(owner, outcomes, w, k - 1);
      }
    }
  }

  /** `flatten()` on a list of lists. */
  function Concat<T>(ls: seq<seq<T>>): seq<T>
  {
    if ls == [] then [] else ls[0] + Concat(ls[1..])
  }

  /** Appending to one list adds one element to the concatenation. */
  lemma {:induction false} ConcatAppendAt<T>(ls: seq<seq<T>>, w: nat, x: T)
    requires w < |ls|
    ensures |Concat(ls[w := ls[w] + [x]])| == |Concat(ls)| + 1
    ensures multiset(Concat(ls[w := ls[w] + [x]])) == multiset(Concat(ls)) + multiset{x}
  {
    var ls' := ls[w := ls[w] + [x]];
    assert Concat(ls') == ls'[0] + Concat(ls'[1..]);
    assert Concat(ls) == ls[0] + Concat(ls[1..]);
    if w == 0 {
      assert ls'[1..] == ls[1..];
      assert multiset(ls'[0]) == multiset(ls[0]) + multiset{x};
    } else {
      ConcatAppendAt(ls[1..], w - 1, x);
      assert ls'[1..] == ls[1..][w - 1 := ls[1..][w - 1] + [x]];
      assert ls'[0] == ls[0];
    }
  }

  /** Taking one element more adds it to the multiset of the prefix. */
  lemma TakeOneMore<T>(s: seq<T>, k: nat)
    requires k < |s|
    ensures multiset(s[..k + 1]) == multiset(s[..k]) + multiset{s[k]}
  {
    assert s[..k + 1] == s[..k] + [s[k]];
  }

  /** Shorter lists, one for one, give a shorter concatenation. */
  lemma {:induction false} ConcatLengthMonotone<T, U>(a: seq<seq<T>>, b: seq<seq<U>>)
    requires |a| == |b|
    requires forall i | 0 <= i < |a| :: |a[i]| <= |b[i]|
    ensures |Concat(a)| <= |Concat(b)|
  {
    if a != [] {
      ConcatLengthMonotone(a[1..], b[1..]);
    }
  }

  /** What the workers hold after the first `k` claims of an interleaving:
      per worker, the locations it claimed, the PNGs it collected and the
      exception that ended it; every claimed location appears once. */
  predicate ClaimedSoFar(locations: seq<Location>, owner: seq<nat>, outcomes: seq<Result<Option<Png>>>, k: nat,
                         claimed: seq<seq<Location>>, pngs: seq<seq<Png>>, failed: seq<Option<Throwable>>)
    requires k <= |owner| == |outcomes| <= |locations|
  {
    && ClaimsRecorded(locations, owner, k, claimed)
    && PngsRecorded(owner, outcomes, k, pngs)
    && FailuresRecorded(owner, outcomes, k, failed)
    && (forall v | 0 <= v < Workers :: |pngs[v]| <= |claimed[v]|)
    && ClaimedOnce(locations, k, claimed)
  }

  predicate ClaimsRecorded(locations: seq<Location>, owner: seq<nat>, k: nat, claimed: seq<seq<Location>>)
    requires k <= |owner| <= |locations|
  {
    |claimed| == Workers && forall v | 0 <= v < Workers :: claimed[v] == ClaimedBy(locations, owner, v, k)
  }

  predicate PngsRecorded(owner: seq<nat>, outcomes: seq<Result<Option<Png>>>, k: nat, pngs: seq<seq<Png>>)
    requires k <= |owner| == |outcomes|
  {
    |pngs| == Workers && forall v | 0 <= v < Workers :: pngs[v] == Collected(owner, outcomes, v, k)
  }

  predicate FailuresRecorded(owner: seq<nat>, outcomes: seq<Result<Option<Png>>>, k: nat, failed: seq<Option<Throwable>>)
    requires k <= |owner| == |outcomes|
  {
    |failed| == Workers && forall v | 0 <= v < Workers :: failed[v] == FailureOf(owner, outcomes, v, k)
  }

  /** The claimed lists together hold the first `k` locations, each once. */
  predicate ClaimedOnce(locations: seq<Location>, k: nat, claimed: seq<seq<Location>>)
    requires k <= |locations|
  {
    |Concat(claimed)| == k && multiset(Concat(claimed)) == multiset(locations[..k])
  }

  lemma ClaimsRecordedStep(locations: seq<Location>, owner: seq<nat>, k: nat, claimed: seq<seq<Location>>)
    requires k < |owner| <= |locations| && owner[k] < Workers
    requires ClaimsRecorded(locations, owner, k, claimed)
    ensures ClaimsRecorded(locations, owner, k + 1, claimed[owner[k] := claimed[owner[k]] + [locations[k]]])
  {
    var claimed' := claimed[owner[k] := claimed[owner[k]] + [locations[k]]];
    forall v | 0 <= v < Workers
      ensures claimed'[v] == ClaimedBy(locations, owner, v, k + 1)
    {
      assert ClaimedBy(locations, owner, v, k + 1)
          == ClaimedBy(locations, owner, v, k) + (if owner[k] == v then [locations[k]] else []);
    }
  }

  lemma PngsRecordedStep(owner: seq<nat>, outcomes: seq<Result<Option<Png>>>, k: nat, pngs: seq<seq<Png>>)
    requires k < |owner| == |outcomes| && owner[k] < Workers
    requires PngsRecorded(owner, outcomes, k, pngs)
    ensures var w := owner[k];
            PngsRecorded(owner, outcomes, k + 1,
                         if outcomes[k].Success? && outcomes[k].value.Some?
                         then pngs[w := pngs[w] + [outcomes[k].value.value]] else pngs)
  {
    var w := owner[k];
    var pngs' := if outcomes[k].Success? && outcomes[k].value.Some?
                 then pngs[w := pngs[w] + [outcomes[k].value.value]] else pngs;
    forall v | 0 <= v < Workers
      ensures pngs'[v] == Collected(owner, outcomes, v, k + 1)
    {
      assert Collected(owner, outcomes, v, k + 1)
          == Collected(owner, outcomes, v, k)
             + (if owner[k] == v && outcomes[k].Success? && outcomes[k].value.Some?
                then [outcomes[k].value.value] else []);
    }
  }

  lemma FailuresRecordedStep(owner: seq<nat>, outcomes: seq<Result<Option<Png>>>, k: nat, failed: seq<Option<Throwable>>)
    requires k < |owner| == |outcomes| && owner[k] < Workers
    requires FailuresRecorded(owner, outcomes, k, failed)
    ensures var w := owner[k];
            FailuresRecorded(owner, outcomes, k + 1,
                             if outcomes[k].Failure? then failed[w := Some(outcomes[k].exception)] else failed)
  {
  }

  lemma ClaimedOnceStep(locations: seq<Location>, k: nat, claimed: seq<seq<Location>>, w: nat)
    requires k < |locations| && w < |claimed|
    requires ClaimedOnce(locations, k, claimed)
    ensures ClaimedOnce(locations, k + 1, claimed[w := claimed[w] + [locations[k]]])
  {
    ConcatAppendAt(claimed, w, locations[k]);
    TakeOneMore(locations, k);
  }

  /** Claim `k` adds its location to the claiming worker's list, its PNG
      (if any) to that worker's collection, and its exception (if any) as
      that worker's failure. */
  lemma ClaimedSoFarStep(locations: seq<Location>, owner: seq<nat>, outcomes: seq<Result<Option<Png>>>, k: nat,
                         claimed: seq<seq<Location>>, pngs: seq<seq<Png>>, failed: seq<Option<Throwable>>)
    requires k < |owner| == |outcomes| <= |locations| && owner[k] < Workers
    requires ClaimedSoFar(locations, owner, outcomes, k, claimed, pngs, failed)
    ensures var w := owner[k];
            var outcome := outcomes[k];
            ClaimedSoFar(locations, owner, outcomes, k + 1,
                         claimed[w := claimed[w] + [locations[k]]],
                         if outcome.Success? && outcome.value.Some? then pngs[w := pngs[w] + [outcome.value.value]] else pngs,
                         if outcome.Failure? then failed[w := Some(outcome.exception)] else failed)
  {
    ClaimsRecordedStep(locations, owner, k, claimed);
    PngsRecordedStep(owner, outcomes, k, pngs);
    FailuresRecordedStep(owner, outcomes, k, failed);
    ClaimedOnceStep(locations, k, claimed, owner[k]);
  }

  /** Claim `k`: worker `owner[k]` takes the next location from the cursor
      and awaits its read. */
  method ClaimNext(cursor: LocationCursor, owner: seq<nat>, outcomes: seq<Result<Option<Png>>>, k: nat,
                   claimed: seq<seq<Location>>, pngs: seq<seq<Png>>, failed: seq<Option<Throwable>>)
    returns (claimed': seq<seq<Location>>, pngs': seq<seq<Png>>, failed': seq<Option<Throwable>>)
    requires cursor.Valid() && cursor.next == k
    requires k < |owner| == |outcomes| <= |cursor.locations| && owner[k] < Workers
    requires ClaimedSoFar(cursor.locations, owner, outcomes, k, claimed, pngs, failed)
    modifies cursor
    ensures cursor.Valid() && cursor.next == k + 1
    ensures ClaimedSoFar(cursor.locations, owner, outcomes, k + 1, claimed', pngs', failed')
  {
    var w := owner[k];
    ghost var locations := cursor.locations;
    var location := cursor.Claim();
    claimed' := claimed[w := claimed[w] + [location.value]];
    pngs', failed' := pngs, failed;
    var outcome := outcomes[k];
    if outcome.Failure? {
      failed' := failed[w := Some(outcome.exception)];
    } else if outcome.value.Some? {
      pngs' := pngs[w := pngs[w] + [outcome.value.value]];
    }
    ClaimedSoFarStep(locations, owner, outcomes, k, claimed, pngs, failed);
  }

  /** The claims of one interleaving, made one at a time against the shared
      cursor. */
  method ClaimInTurn(cursor: LocationCursor, owner: seq<nat>, outcomes: seq<Result<Option<Png>>>)
    returns (claimed: seq<seq<Location>>, pngs: seq<seq<Png>>, failed: seq<Option<Throwable>>)
    requires cursor.Valid() && cursor.next == 0
    requires |outcomes| == |owner| <= |cursor.locations|
    requires forall k | 0 <= k < |owner| :: owner[k] < Workers
    modifies cursor
    ensures cursor.Valid() && cursor.next == |owner|
    ensures ClaimedSoFar(cursor.locations, owner, outcomes, |owner|, claimed, pngs, failed)
  {
    claimed := [[], [], [], []];
    pngs := [[], [], [], []];
    failed := [None, None, None, None];
    assert forall v | 0 <= v < Workers :: pngs[v] == [];
    assert forall v | 0 <= v < Workers :: Collected(owner, outcomes, v, 0) == [];
    var k := 0;
    while k < |owner|
      invariant 0 <= k <= |owner|
      invariant cursor.Valid() && cursor.next == k
      invariant ClaimedSoFar(cursor.locations, owner, outcomes, k, claimed, pngs, failed)
    {
      claimed, pngs, failed := ClaimNext(cursor, owner, outcomes, k, claimed, pngs, failed);
      k := k + 1;
    }
  }

  /** The whole of one interleaving: the claims in turn, then one last claim
      by every worker still running, which finds the iterator exhausted and
      leaves its loop. */
  method DrainQueue(locations: seq<Location>, owner: seq<nat>, outcomes: seq<Result<Option<Png>>>)
    returns (claimed: seq<seq<Location>>, pngs: seq<seq<Png>>, failed: seq<Option<Throwable>>)
    requires ValidSchedule(|locations|, owner, outcomes)
    ensures |claimed| == Workers && |pngs| == Workers && |failed| == Workers
    ensures forall w | 0 <= w < Workers :: claimed[w] == ClaimedBy(locations, owner, w, |owner|)
    ensures forall w | 0 <= w < Workers :: pngs[w] == Collected(owner, outcomes, w, |owner|)
    ensures forall w | 0 <= w < Workers :: failed[w] == FailureOf(owner, outcomes, w, |owner|)
    ensures forall w | 0 <= w < Workers :: |pngs[w]| <= |claimed[w]|
    ensures |Concat(claimed)| == |owner|
    ensures multiset(Concat(claimed)) == multiset(locations[..|owner|])
    ensures (exists w | 0 <= w < Workers :: failed[w].None?) ==> |owner| == |locations|
  {
    var cursor := new LocationCursor(locations);
    claimed, pngs, failed := ClaimInTurn(cursor, owner, outcomes);
    for w := 0 to Workers
      invariant cursor.Valid() && cursor.locations == locations && cursor.next == |owner|
    {
      if failed[w].None? {
        FailureOfIffFailedClaim(owner, outcomes, w, |owner|);
        var none := cursor.Claim();
        assert none.None?;
      }
    }
    forall w | 0 <= w < Workers && failed[w].None?
      ensures |owner| == |locations|
    {
      FailureOfIffFailedClaim(owner, outcomes, w, |owner|);
    }
  }

  /** Each worker that did not fail shuffles what it collected and returns
      it; a worker that failed rejects with its exception. `random(w, i)` is
      worker `w`'s draw for index `i`. */
  method FinishWorkers(pngs: seq<seq<Png>>, failed: seq<Option<Throwable>>, random: (nat, nat) -> nat)
    returns (workers: seq<Result<seq<Png>>>)
    requires |pngs| == Workers && |failed| == Workers
    ensures |workers| == Workers
    ensures forall w | 0 <= w < Workers ::
              && (failed[w].Some? ==> workers[w] == Failure(failed[w].value))
              && (failed[w].None? ==> workers[w].Success? && multiset(workers[w].value) == multiset(pngs[w]))
  {
    workers := [];
    for w := 0 to Workers
      invariant |workers| == w
      invariant forall v | 0 <= v < w ::
                  && (failed[v].Some? ==> workers[v] == Failure(failed[v].value))
                  && (failed[v].None? ==> workers[v].Success? && multiset(workers[v].value) == multiset(pngs[v]))
    {
      if failed[w].Some? {
        workers := workers + [Failure(failed[w].value)];
      } else {
        var list := pngs[w];
        var a := new Png[|list|](i requires 0 <= i < |list| => list[i]);
        assert a[..] == list;
        Shuffle(a, (i: nat) => random(w, i));
        workers := workers + [Success(a[..])];
      }
    }
  }

  /** `.then { it.flatten() }` on the joined worker lists. */
  function JoinLists(r: Result<seq<seq<Png>>>): Result<seq<Png>>
  {
    match r
    case Success(lists) => Success(Concat(lists))
    case Failure(e) => Failure(e)
  }

  /** The joined result succeeds iff every claim's read succeeded, and then
      holds no more PNGs than there are locations. */
  lemma JoinedOutcome(locations: seq<Location>, owner: seq<nat>, outcomes: seq<Result<Option<Png>>>,
                      claimed: seq<seq<Location>>, pngs: seq<seq<Png>>, failed: seq<Option<Throwable>>,
                      workers: seq<Result<seq<Png>>>)
    requires ValidSchedule(|locations|, owner, outcomes)
    requires |claimed| == Workers && |pngs| == Workers && |failed| == Workers && |workers| == Workers
    requires forall w | 0 <= w < Workers :: failed[w] == FailureOf(owner, outcomes, w, |owner|)
    requires forall w | 0 <= w < Workers :: |pngs[w]| <= |claimed[w]|
    requires |Concat(claimed)| == |owner|
    requires forall w | 0 <= w < Workers ::
               && (failed[w].Some? ==> workers[w] == Failure(failed[w].value))
               && (failed[w].None? ==> workers[w].Success? && multiset(workers[w].value) == multiset(pngs[w]))
    ensures Flatten(workers).Success? <==> forall k | 0 <= k < |owner| :: outcomes[k].Success?
    ensures Flatten(workers).Success? ==> |Concat(Flatten(workers).value)| <= |locations|
  {
    AllFailsIffSomeFailure(workers);
    forall w | 0 <= w < Workers {
      FailureOfIffFailedClaim(owner, outcomes, w, |owner|);
    }
    if Flatten(workers).Success? {
      forall k | 0 <= k < |owner| ensures outcomes[k].Success? {
        var w := owner[k];
        assert workers[w].Success?;
        assert !FailedClaim(owner, outcomes, w, |owner|);
      }
      AllSuccessesYieldValues(workers);
      var lists := Flatten(workers).value;
      forall w | 0 <= w < Workers ensures |lists[w]| <= |claimed[w]| {
        assert |multiset(workers[w].value)| == |multiset(pngs[w])|;
      }
      ConcatLengthMonotone(lists, claimed);
    } else {
      var w :| 0 <= w < Workers && workers[w].Failure?;
      var k :| 0 <= k < |owner| && owner[k] == w && outcomes[k].Failure?;
    }
  }

  /** The non-null PNGs the reads found, in claim order. */
  function Found(outcomes: seq<Result<Option<Png>>>): seq<Png>
  {
    if outcomes == [] then []
    else
      var last := outcomes[|outcomes| - 1];
      Found(outcomes[..|outcomes| - 1]) + (if last.Success? && last.value.Some? then [last.value.value] else [])
  }

  /** The four workers' collected lists after the first `k` claims. */
  function CollectedAll(owner: seq<nat>, outcomes: seq<Result<Option<Png>>>, k: nat): (lists: seq<seq<Png>>)
    requires k <= |owner| == |outcomes|
    ensures |lists| == Workers
    ensures forall w | 0 <= w < Workers :: lists[w] == Collected(owner, outcomes, w, k)
  {
    [Collected(owner, outcomes, 0, k), Collected(owner, outcomes, 1, k),
     Collected(owner, outcomes, 2, k), Collected(owner, outcomes, 3, k)]
  }

  /** Between them the workers collect every PNG found, each once. */
  lemma {:induction false} CollectedPartition(owner: seq<nat>, outcomes: seq<Result<Option<Png>>>, k: nat)
    requires k <= |owner| == |outcomes|
    requires forall j | 0 <= j < |owner| :: owner[j] < Workers
    ensures multiset(Concat(CollectedAll(owner, outcomes, k))) == multiset(Found(outcomes[..k]))
  {
    if k == 0 {
      var empty := CollectedAll(owner, outcomes, 0);
      assert empty == [[], [], [], []];
      assert Concat(empty[3..]) == [];
      assert Concat(empty[2..]) == [] by { assert empty[2..][1..] == empty[3..]; }
      assert Concat(empty[1..]) == [] by { assert empty[1..][1..] == empty[2..]; }
      assert outcomes[..0] == [];
    } else {
      CollectedPartition(owner, outcomes, k - 1);
      var o := outcomes[k - 1];
      var prev := CollectedAll(owner, outcomes, k - 1);
      var cur := CollectedAll(owner, outcomes, k);
      assert outcomes[..k][..k - 1] == outcomes[..k - 1];
      assert outcomes[..k][k - 1] == o;
      CollectedStep(owner, outcomes, k);
      if o.Success? && o.value.Some? {
        assert Found(outcomes[..k]) == Found(outcomes[..k - 1]) + [o.value.value];
        ConcatAppendAt(prev, owner[k - 1], o.value.value);
        assert multiset(Concat(cur)) == multiset(Concat(prev)) + multiset{o.value.value};
      } else {
        assert Found(outcomes[..k]) == Found(outcomes[..k - 1]) + [];
        assert cur == prev;
      }
    }
  }

  /** Claim `k - 1` adds what it found to its worker's list only. */
  lemma CollectedStep(owner: seq<nat>, outcomes: seq<Result<Option<Png>>>, k: nat)
    requires 0 < k <= |owner| == |outcomes| && owner[k - 1] < Workers
    ensures var o := outcomes[k - 1];
            var prev := CollectedAll(owner, outcomes, k - 1);
            CollectedAll(owner, outcomes, k)
              == if o.Success? && o.value.Some? then prev[owner[k - 1] := prev[owner[k - 1]] + [o.value.value]] else prev
  {
    var o := outcomes[k - 1];
    var w := owner[k - 1];
    var prev := CollectedAll(owner, outcomes, k - 1);
    var cur := CollectedAll(owner, outcomes, k);
    var found := if o.Success? && o.value.Some? then [o.value.value] else [];
    var expected := if o.Success? && o.value.Some? then prev[w := prev[w] + found] else prev;
    forall v | 0 <= v < Workers
      ensures cur[v] == expected[v]
    {
      assert Collected(owner, outcomes, v, k)
          == Collected(owner, outcomes, v, k - 1) + (if w == v then found else []);
    }
  }

  /** Lists that hold the same elements, one for one, concatenate to lists
      that hold the same elements. */
  lemma {:induction false} ConcatSameElements<T>(a: seq<seq<T>>, b: seq<seq<T>>)
    requires |a| == |b|
    requires forall i | 0 <= i < |a| :: multiset(a[i]) == multiset(b[i])
    ensures multiset(Concat(a)) == multiset(Concat(b))
  {
    if a != [] {
      ConcatSameElements(a[1..], b[1..]);
    }
  }

  /** A successful join means every location was claimed and read, and it
      holds exactly the PNGs those reads found. */
  lemma JoinedContents(locations: seq<Location>, owner: seq<nat>, outcomes: seq<Result<Option<Png>>>,
                       pngs: seq<seq<Png>>, failed: seq<Option<Throwable>>, workers: seq<Result<seq<Png>>>)
    requires ValidSchedule(|locations|, owner, outcomes)
    requires |pngs| == Workers && |failed| == Workers && |workers| == Workers
    requires forall w | 0 <= w < Workers :: pngs[w] == Collected(owner, outcomes, w, |owner|)
    requires forall w | 0 <= w < Workers :: failed[w] == FailureOf(owner, outcomes, w, |owner|)
    requires forall w | 0 <= w < Workers ::
               && (failed[w].Some? ==> workers[w] == Failure(failed[w].value))
               && (failed[w].None? ==> workers[w].Success? && multiset(workers[w].value) == multiset(pngs[w]))
    requires Flatten(workers).Success?
    ensures |owner| == |locations|
    ensures multiset(Concat(Flatten(workers).value)) == multiset(Found(outcomes))
  {
    WorkersSucceeded(workers);
    assert failed[0].None?;
    FailureOfIffFailedClaim(owner, outcomes, 0, |owner|);
    JoinedPermutation(owner, outcomes, pngs, Flatten(workers).value);
  }

  /** Lists that hold, worker by worker, the PNGs each worker collected
      hold together every PNG found. */
  lemma JoinedPermutation(owner: seq<nat>, outcomes: seq<Result<Option<Png>>>,
                          pngs: seq<seq<Png>>, lists: seq<seq<Png>>)
    requires |owner| == |outcomes|
    requires forall k | 0 <= k < |owner| :: owner[k] < Workers
    requires |pngs| == Workers && |lists| == Workers
    requires forall w | 0 <= w < Workers :: pngs[w] == Collected(owner, outcomes, w, |owner|)
    requires forall w | 0 <= w < Workers :: multiset(lists[w]) == multiset(pngs[w])
    ensures multiset(Concat(lists)) == multiset(Found(outcomes))
  {
    ConcatSameElements(lists, pngs);
    assert pngs == CollectedAll(owner, outcomes, |owner|);
    CollectedPartition(owner, outcomes, |owner|);
    assert outcomes[..|owner|] == outcomes;
  }

  /** The all-combinator succeeded only if every input did, and then its
      value lists their values in order. */
  lemma WorkersSucceeded<T>(rs: seq<Result<T>>)
    requires Flatten(rs).Success?
    ensures |Flatten(rs).value| == |rs|
    ensures forall i | 0 <= i < |rs| :: rs[i].Success? && Flatten(rs).value[i] == rs[i].value
  {
    AllFailsIffSomeFailure(rs);
    AllSuccessesYieldValues(rs);
  }

  /** `get(locations)` for one interleaving of its four workers: every
      claimed location is claimed by exactly one worker, once, in list order;
      the result is the all-combinator over the workers' lists, joined in
      worker order, each list a permutation of the PNGs that worker
      collected, and it is never longer than the list of locations. A
      successful result means every location was read, and it is a
      permutation of every non-null PNG those reads found. */
  method GetMany(locations: seq<Location>, owner: seq<nat>, outcomes: seq<Result<Option<Png>>>,
                 random: (nat, nat) -> nat)
    returns (r: Result<seq<Png>>, claimed: seq<seq<Location>>, workers: seq<Result<seq<Png>>>)
    requires ValidSchedule(|locations|, owner, outcomes)
    ensures |claimed| == Workers && |workers| == Workers
    ensures forall w | 0 <= w < Workers :: claimed[w] == ClaimedBy(locations, owner, w, |owner|)
    ensures multiset(Concat(claimed)) == multiset(locations[..|owner|])
    ensures forall w | 0 <= w < Workers ::
              && (workers[w].Failure? <==> FailureOf(owner, outcomes, w, |owner|).Some?)
              && (workers[w].Failure? ==> workers[w].exception == FailureOf(owner, outcomes, w, |owner|).value)
              && (workers[w].Success? ==>
                    multiset(workers[w].value) == multiset(Collected(owner, outcomes, w, |owner|)))
    ensures r == JoinLists(Flatten(workers))
    ensures r.Success? <==> forall k | 0 <= k < |owner| :: outcomes[k].Success?
    ensures r.Success? ==> |r.value| <= |locations|
    ensures r.Success? ==> |owner| == |locations| && multiset(r.value) == multiset(Found(outcomes))
  {
    var pngs, failed;
    claimed, pngs, failed := DrainQueue(locations, owner, outcomes);
    workers := FinishWorkers(pngs, failed, random);
    var joined := All(workers, [0, 1, 2, 3]);
    r := JoinLists(joined.result);
    JoinedOutcome(locations, owner, outcomes, claimed, pngs, failed, workers);
    if r.Success? {
      JoinedContents(locations, owner, outcomes, pngs, failed, workers);
    }
  }
}
