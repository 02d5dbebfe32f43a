/** Client code in the style of a test harness: what a caller can conclude
    from the contracts of the store and the handlers alone. */
module Scenarios {
  import opened Errors
  import opened BigEndian
  import opened Storage
  import opened HttpApi

  /** Save then Get and Exists: the saved URL is found. */
  method SaveThenGet(code: string, url: string) returns (got: Result<string>, present: Result<bool>)
    requires code != ""
    ensures got == Ok(url) && present == Ok(true)
  {
    var store := new Store();
    var _ := store.Save(code, url, false);
    got := store.Get(code, false);
    present := store.Exists(code, false);
  }

  /** Save is a Put: saving a code twice keeps the second URL. */
  method SaveOverwrites(code: string, first: string, second: string) returns (got: Result<string>)
    requires code != ""
    ensures got == Ok(second)
  {
    var store := new Store();
    var _ := store.Save(code, first, false);
    var _ := store.Save(code, second, false);
    got := store.Get(code, false);
  }

  /** A code nobody saved is not found, and has no hits. */
  method UnknownCode(code: string) returns (got: Result<string>, present: Result<bool>, count: Result<uint64>)
    ensures got == Err(NotFound) && present == Ok(false) && count == Ok(0)
  {
    var store := new Store();
    got := store.Get(code, false);
    present := store.Exists(code, false);
    count := store.Hits(code, false);
  }

  /** k increments of one counter read back as k, as long as k fits a uint64. */
  method IncrementTimes(code: string, k: nat) returns (count: Result<uint64>)
    requires code != "" && k < U64Modulus
    ensures count == Ok(k)
  {
    var store := new Store();
    var i := 0;
    while i < k
      invariant 0 <= i <= k
      invariant store.Valid()
      invariant store.Count(code) == i
    {
      var _ := store.IncHit(code, false);
      i := i + 1;
    }
    count := store.Hits(code, false);
  }

  /** A saved code reports 0 hits, and 1 after one redirect. */
  method ResolveCountsOneHit() returns (location: Reply<string>, before: uint64, after: uint64)
    ensures location == Reply(StatusFound, "https://example.com")
    ensures before == 0 && after == 1
  {
    var store := new Store();
    var server := new Server(store, "http://localhost:8080/");
    var _ := store.Save("abc123", "https://example.com", false);
    var info := server.HandleGetURL("abc123", false, false);
    before := info.body.hits;
    location := server.HandleRedirect("abc123", false, false);
    info := server.HandleGetURL("abc123", false, false);
    after := info.body.hits;
  }

  /** The same custom code twice: the second request is refused with 409 and
      the first URL stays. */
  method CustomCodeTwice() returns (first: int, second: int, kept: Result<string>)
    ensures first == StatusCreated && second == StatusConflict
    ensures kept == Ok("https://example.com")
  {
    var store := new Store();
    var server := new Server(store, "http://localhost:8080");
    var env := Env(false, [], false);
    Strings.TrimSpaceKeeps("abc123");
    var r1 := server.HandleShorten("https://example.com", "abc123", env);
    assert r1 == Reply(StatusCreated, ShortenResp("abc123", ShortURL(server.baseURL, "abc123"), "https://example.com"));
    var r2 := server.HandleShorten("https://example.org", "abc123", env);
    assert r2 == HttpError(StatusConflict, "custom code already exists");
    first, second := r1.status, r2.status;
    kept := store.Get("abc123", false);
  }
}
