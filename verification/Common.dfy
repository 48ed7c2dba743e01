/** What the document connectors share: row limits, byte limits, results. */
module Common {
  const U64_MAX: nat := 0xFFFF_FFFF_FFFF_FFFF
  const U32_MAX: nat := 0xFFFF_FFFF
  const I32_MAX: nat := 0x7FFF_FFFF

  type Byte = b: nat | b < 256
  type Bytes = seq<Byte>

  datatype Category = InvalidRequest | ProtocolFailure

  datatype Result<+T> = Ok(value: T) | Err(error: Category)

  function Min(a: nat, b: nat): nat { if a <= b then a else b }

  /** The row limits of the request context and of the connection's policy. */
  datatype Ceilings = Ceilings(context: nat, policy: nat)

  function EffectiveLimit(ceilings: Ceilings, requested: nat): Result<nat> {
    if requested == 0 then Err(InvalidRequest) else Ok(Min(Min(requested, ceilings.context), ceilings.policy))
  }

  /** A limit is refused only when it is zero, and is the least of what was asked for and the two ceilings. */
  lemma LimitIsLeast(ceilings: Ceilings, requested: nat, limit: nat)
    ensures EffectiveLimit(ceilings, requested).Err? <==> requested == 0
    ensures requested == 0 ==> EffectiveLimit(ceilings, requested) == Err(InvalidRequest)
    ensures EffectiveLimit(ceilings, requested) == Ok(limit) ==>
      && limit <= requested && limit <= ceilings.context && limit <= ceilings.policy
      && limit in {requested, ceilings.context, ceilings.policy}
  {
  }

  function TotalSize<T>(size: T -> nat, records: seq<T>): nat {
    if records == [] then 0 else TotalSize(size, records[..|records| - 1]) + size(records[|records| - 1])
  }

  /** The sizes add up to at most the limit in saturating 64-bit arithmetic. */
  predicate Fits<T>(size: T -> nat, records: seq<T>, maxBytes: nat) {
    Min(TotalSize(size, records), U64_MAX) <= maxBytes
  }

  lemma {:induction false} PrefixFits<T>(size: T -> nat, records: seq<T>, k: nat, maxBytes: nat)
    requires k <= |records| && Fits(size, records, maxBytes)
    ensures Fits(size, records[..k], maxBytes)
    decreases |records|
  {
    if k < |records| {
      var shorter := records[..|records| - 1];
      assert shorter[..k] == records[..k];
      PrefixFits(size, shorter, k, maxBytes);
    } else {
      assert records[..k] == records;
    }
  }

  /** The length of the longest fitting prefix. */
  function KeptCount<T>(size: T -> nat, records: seq<T>, maxBytes: nat): (k: nat)
    ensures k <= |records| && Fits(size, records[..k], maxBytes)
    ensures k < |records| ==> !Fits(size, records[..k + 1], maxBytes)
    decreases |records|
  {
    if Fits(size, records, maxBytes) then
      assert records[..|records|] == records;
      |records|
    else
      var shorter := records[..|records| - 1];
      var k := KeptCount(size, shorter, maxBytes);
      assert shorter[..k] == records[..k];
      assert k < |shorter| ==> shorter[..k + 1] == records[..k + 1];
      assert k == |shorter| ==> records[..k + 1] == records;
      k
  }

  /** A prefix fits exactly when it is no longer than the kept one. */
  lemma KeptIsLongest<T>(size: T -> nat, records: seq<T>, maxBytes: nat, k: nat)
    requires k <= |records|
    ensures Fits(size, records[..k], maxBytes) <==> k <= KeptCount(size, records, maxBytes)
  {
    var kept := KeptCount(size, records, maxBytes);
    if k <= kept {
      assert records[..kept][..k] == records[..k];
      PrefixFits(size, records[..kept], k, maxBytes);
    } else if Fits(size, records[..k], maxBytes) {
      assert records[..k][..kept + 1] == records[..kept + 1];
      PrefixFits(size, records[..k], kept + 1, maxBytes);
    }
  }

  /** Keeps the longest prefix within the byte limit. */
  method EnforceRecordsSize<T>(records: seq<T>, size: T -> nat, maxBytes: nat) returns (kept: seq<T>, truncated: bool)
    requires maxBytes <= U64_MAX
    ensures kept == records[..KeptCount(size, records, maxBytes)]
    ensures truncated <==> !Fits(size, records, maxBytes)
  {
    var used := 0;
    var keep := |records|;
    var index := 0;
    while index < |records|
      invariant 0 <= index <= |records| && keep == |records|
      invariant used == Min(TotalSize(size, records[..index]), U64_MAX) && used <= maxBytes
    {
      var bytes := size(records[index]);
      assert records[..index + 1][..index] == records[..index];
      if Min(used + bytes, U64_MAX) > maxBytes {
        assert !Fits(size, records[..index + 1], maxBytes);
        keep := index;
        break;
      }
      used := Min(used + bytes, U64_MAX);
      index := index + 1;
    }
    KeptIsLongest(size, records, maxBytes, keep);
    assert records[..|records|] == records;
    KeptIsLongest(size, records, maxBytes, |records|);
    if keep < |records| {
      KeptIsLongest(size, records, maxBytes, keep + 1);
    }
    truncated := keep < |records|;
    kept := records[..keep];
  }

  // ---------------------------------------------------------------- stretches of a sequence

  /** `part` stands in `all` at `place`. */
  ghost predicate Stretch<T>(all: seq<T>, place: nat, part: seq<T>) {
    place + |part| <= |all| && forall i :: 0 <= i < |part| ==> part[i] == all[place + i]
  }

  lemma StretchesJoin<T>(all: seq<T>, place: nat, a: seq<T>, b: seq<T>)
    requires Stretch(all, place, a) && Stretch(all, place + |a|, b)
    ensures Stretch(all, place, a + b)
  {
    forall i | 0 <= i < |a + b| ensures (a + b)[i] == all[place + i] {
      if i >= |a| { assert b[i - |a|] == all[place + |a| + (i - |a|)]; }
    }
  }

  lemma StretchInside<T>(all: seq<T>, at: nat, outer: seq<T>, skip: nat, inner: seq<T>)
    requires Stretch(all, at, outer) && Stretch(outer, skip, inner)
    ensures Stretch(all, at + skip, inner)
  {
    forall i | 0 <= i < |inner| ensures inner[i] == all[at + skip + i] {
      assert inner[i] == outer[skip + i];
    }
  }

  lemma WholeStretch<T>(all: seq<T>, part: seq<T>)
    requires Stretch(all, 0, part)
    ensures part <= all && (|part| == |all| ==> part == all)
  {
  }
}
