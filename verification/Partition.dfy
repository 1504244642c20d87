/** Hashed per-partition concurrency buckets (`crates/runlet-core/src/partition.rs`). */
module Partition {
  import opened Wrappers

  /** The bucket a key hashes to: the hash as a `usize` (0 when it does not fit) modulo the count. */
  function BucketOf(hash: nat, usizeMax: nat, count: nat): (b: nat)
    requires 0 < count
    ensures b < count
    ensures hash <= usizeMax ==> exists rounds: nat :: hash == rounds * count + b
    ensures hash > usizeMax ==> b == 0
  {
    assert hash == (hash / count) * count + hash % count;
    (if hash <= usizeMax then hash else 0) % count
  }

  /** A fixed array of semaphores, each holding its number of free permits. */
  class PartitionLimiter {
    const hash: string -> nat
    const usizeMax: nat
    const perPartition: nat
    const free: array<nat>

    ghost predicate Valid()
      reads free
    {
      && 0 < free.Length && 0 < perPartition
      && forall b :: 0 <= b < free.Length ==> free[b] <= perPartition
    }

    constructor (count: nat, perPartition: nat, hash: string -> nat, usizeMax: nat)
      requires 0 < count && 0 < perPartition
      ensures Valid() && fresh(free) && free.Length == count
      ensures this.perPartition == perPartition && this.hash == hash && this.usizeMax == usizeMax
      ensures forall b :: 0 <= b < count ==> free[b] == perPartition
    {
      this.hash, this.usizeMax, this.perPartition := hash, usizeMax, perPartition;
      free := new nat[count](_ => perPartition);
    }

    function BucketFor(partition: string): (b: nat)
      requires free.Length > 0
      ensures b < free.Length
    {
      BucketOf(hash(partition), usizeMax, free.Length)
    }

    /** Takes a permit of the key's bucket, or nothing when the bucket is saturated. */
    method TryAcquire(partition: string) returns (permit: Option<nat>)
      requires Valid()
      modifies free
      ensures Valid()
      ensures permit.Some? <==> 0 < old(free[BucketFor(partition)])
      ensures permit.Some? ==> permit.value == BucketFor(partition)
      ensures permit.Some? ==> free[..] == old(free[..])[permit.value := old(free[permit.value]) - 1]
      ensures permit.None? ==> free[..] == old(free[..])
    {
      var b := BucketFor(partition);
      if free[b] == 0 {
        return None;
      }
      free[b] := free[b] - 1;
      return Some(b);
    }

    /** Dropping a permit gives it back to the bucket it came from. */
    method Release(permit: nat)
      requires Valid() && permit < free.Length && free[permit] < perPartition
      modifies free
      ensures Valid()
      ensures free[..] == old(free[..])[permit := old(free[permit]) + 1]
    {
      free[permit] := free[permit] + 1;
    }
  }

  /** `PartitionLimiter::new`: disabled (`None`) when either figure is zero. */
  method NewLimiter(count: nat, perPartition: nat, hash: string -> nat, usizeMax: nat)
    returns (limiter: Option<PartitionLimiter>)
    ensures limiter.Some? <==> 0 < count && 0 < perPartition
    ensures limiter.Some? ==> fresh(limiter.value) && fresh(limiter.value.free) && limiter.value.Valid()
    ensures limiter.Some? ==> limiter.value.free.Length == count && limiter.value.perPartition == perPartition
    ensures limiter.Some? ==> limiter.value.hash == hash && limiter.value.usizeMax == usizeMax
    ensures limiter.Some? ==> forall b :: 0 <= b < count ==> limiter.value.free[b] == perPartition
  {
    if perPartition == 0 || count == 0 {
      return None;
    }
    var built := new PartitionLimiter(count, perPartition, hash, usizeMax);
    return Some(built);
  }
}
