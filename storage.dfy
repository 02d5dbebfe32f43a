/** The mapping store: two bbolt buckets, "urls" (code to URL) and "hits"
    (code to an 8-byte big-endian counter). A bbolt transaction that fails is
    modelled by the `fault` argument of each operation. */
module Storage {
  import opened Errors
  import opened BigEndian

  /** A write transaction the store was asked to run, successful or not. */
  datatype Write = PutURL(code: string, url: string) | PutHit(code: string)

  /** Go's `n++` on a uint64: wraps to 0 after the largest value. */
  function Incremented(n: uint64): (m: uint64)
    ensures n < U64Modulus - 1 ==> m == n + 1
    ensures n == U64Modulus - 1 ==> m == 0
  {
    (n + 1) % U64Modulus
  }

  class Store {
    var urls: map<string, string>
    var hits: map<string, seq<byte>>
    /** Every write transaction attempted so far, in order. */
    ghost var writes: seq<Write>

    /** bbolt refuses empty keys, and every counter was written by IncHit as 8 bytes. */
    ghost predicate Valid()
      reads this
    {
      && "" !in urls
      && "" !in hits
      && forall c | c in hits :: |hits[c]| == 8
    }

    /** The hit count of `code`: the decoded counter, 0 when there is none. */
    function Count(code: string): uint64
      reads this
      requires Valid()
    {
      if code in hits then Uint64(hits[code]) else 0
    }

    /** New, once both buckets exist: both start empty. */
    constructor ()
      ensures Valid()
      ensures urls == map[] && hits == map[] && writes == []
    {
      urls, hits, writes := map[], map[], [];
    }

    /** An unconditional Put into "urls": it overwrites an existing mapping. */
    method Save(code: string, url: string, fault: bool) returns (r: Result<()>)
      requires Valid()
      modifies this
      ensures Valid()
      ensures r == if fault || code == "" then Err(StorageFailure) else Ok(())
      ensures urls == if r.Ok? then old(urls)[code := url] else old(urls)
      ensures hits == old(hits)
      ensures writes == old(writes) + [PutURL(code, url)]
    {
      writes := writes + [PutURL(code, url)];
      if fault || code == "" {
        return Err(StorageFailure);
      }
      urls := urls[code := url];
      r := Ok(());
    }

    method Exists(code: string, fault: bool) returns (r: Result<bool>)
      ensures fault ==> r == Err(StorageFailure)
      ensures !fault ==> r.Ok? && (r.value <==> code in urls)
    {
      if fault {
        return Err(StorageFailure);
      }
      r := Ok(code in urls);
    }

    method Get(code: string, fault: bool) returns (r: Result<string>)
      ensures r.Ok? <==> !fault && code in urls
      ensures r.Ok? ==> r.value == urls[code]
      ensures r.Err? ==> r.error == (if fault then StorageFailure else NotFound)
    {
      if fault {
        return Err(StorageFailure);
      }
      if code !in urls {
        return Err(NotFound);
      }
      r := Ok(urls[code]);
    }

    /** Read-modify-write of the counter of `code` in one transaction. */
    method IncHit(code: string, fault: bool) returns (r: Result<()>)
      requires Valid()
      modifies this
      ensures Valid()
      ensures r == if fault || code == "" then Err(StorageFailure) else Ok(())
      ensures r.Ok? ==> Count(code) == Incremented(old(Count(code)))
      ensures hits == if r.Ok? then old(hits)[code := PutUint64(Incremented(old(Count(code))))] else old(hits)
      ensures urls == old(urls)
      ensures writes == old(writes) + [PutHit(code)]
    {
      writes := writes + [PutHit(code)];
      if fault || code == "" {
        return Err(StorageFailure);
      }
      var n: uint64 := 0;
      if code in hits {
        n := Uint64(hits[code]);
      }
      n := Incremented(n);
      var buf := PutUint64(n);
      hits := hits[code := buf];
      DecodeEncode(n);
      r := Ok(());
    }

    method Hits(code: string, fault: bool) returns (r: Result<uint64>)
      requires Valid()
      ensures fault ==> r == Err(StorageFailure)
      ensures !fault ==> r == Ok(Count(code))
      ensures !fault && code !in hits ==> r == Ok(0)
    {
      if fault {
        return Err(StorageFailure);
      }
      var n: uint64 := 0;
      if code in hits {
        n := Uint64(hits[code]);
      }
      r := Ok(n);
    }
  }
}
