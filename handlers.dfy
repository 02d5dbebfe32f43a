/** The store-facing logic of the HTTP handlers: assigning a code to a URL
    (HandleShorten), resolving a code (HandleRedirect) and reporting on a code
    (HandleGetURL). Request decoding, URL validation and response writing stay
    outside; a handler's answer is modelled as a status code with either a
    body or the error message the handler writes. */
module HttpApi {
  import opened Errors
  import opened BigEndian
  import opened Storage
  import opened Shortener
  import opened Strings

  /** The length of generated codes. */
  const CodeLength: nat := 6

  const StatusOK: int := 200
  const StatusCreated: int := 201
  const StatusFound: int := 302
  const StatusBadRequest: int := 400
  const StatusNotFound: int := 404
  const StatusConflict: int := 409
  const StatusInternalServerError: int := 500

  /** A response: a status with a body, or a status with an error message. */
  datatype Reply<+T> = Reply(status: int, body: T) | HttpError(status: int, message: string)

  datatype ShortenResp = ShortenResp(code: string, shortURL: string, original: string)

  datatype URLInfo = URLInfo(code: string, url: string, hits: uint64, shortURL: string)

  /** One pass of the retry loop: the draws GenerateCode(6) consumes, and
      whether the Exists transaction that follows fails. */
  datatype Attempt = Attempt(draws: seq<Draw>, existsFault: bool)

  /** Everything outside the store a shorten request depends on: whether the
      Exists of a custom code fails, the passes of the retry loop, and whether
      the final Save fails. */
  datatype Env = Env(customExistsFault: bool, attempts: seq<Attempt>, saveFault: bool)

  /** The short URL of a code under a (trimmed) base URL. */
  function ShortURL(baseURL: string, code: string): string {
    baseURL + "/" + code
  }

  predicate WellFormed(attempts: seq<Attempt>) {
    forall k | 0 <= k < |attempts| :: |attempts[k].draws| == CodeLength
  }

  /** A pass that leaves the retry loop: generation fails, Exists fails, or
      the generated code is free. */
  predicate Settles(a: Attempt, urls: map<string, string>) {
    match Render(a.draws)
    case Err(_) => true
    case Ok(c) => a.existsFault || c !in urls
  }

  /** The request does not loop forever: a custom code is given, or some
      supplied pass of the retry loop leaves it. */
  predicate Terminates(urls: map<string, string>, custom: string, env: Env) {
    || TrimSpace(custom) != ""
    || exists k | 0 <= k < |env.attempts| :: Settles(env.attempts[k], urls)
  }

  /** The index of the pass that leaves the retry loop. */
  function FirstSettling(attempts: seq<Attempt>, urls: map<string, string>): (k: nat)
    requires exists k | 0 <= k < |attempts| :: Settles(attempts[k], urls)
    ensures k < |attempts| && Settles(attempts[k], urls)
    ensures forall j | 0 <= j < k :: !Settles(attempts[j], urls)
  {
    if Settles(attempts[0], urls) then 0
    else
      assert exists k | 0 <= k < |attempts[1..]| :: Settles(attempts[1..][k], urls) by {
        var k :| 0 <= k < |attempts| && Settles(attempts[k], urls);
        assert attempts[1..][k - 1] == attempts[k];
      }
      1 + FirstSettling(attempts[1..], urls)
  }

  /** The outcome of choosing a code, before the Save. */
  datatype Choice = Chosen(code: string) | Abort(status: int, message: string)

  /** Lines 47-77 of HandleShorten: the custom code if it is free, otherwise
      the first generated code that is free. */
  function ChooseCode(urls: map<string, string>, custom: string, env: Env): (c: Choice)
    requires WellFormed(env.attempts) && Terminates(urls, custom, env)
    ensures c.Chosen? ==> c.code != "" && c.code !in urls
  {
    var code := TrimSpace(custom);
    if code != "" then
      if env.customExistsFault then Abort(StatusInternalServerError, "store error")
      else if code in urls then Abort(StatusConflict, "custom code already exists")
      else Chosen(code)
    else
      var a := env.attempts[FirstSettling(env.attempts, urls)];
      match Render(a.draws)
      case Err(_) => Abort(StatusInternalServerError, "code generation failed")
      case Ok(c) => if a.existsFault then Abort(StatusInternalServerError, "store error") else Chosen(c)
  }

  /** The whole of HandleShorten once the request is decoded and its URL valid. */
  function Shorten(urls: map<string, string>, baseURL: string, url: string, custom: string, env: Env): Reply<ShortenResp>
    requires WellFormed(env.attempts) && Terminates(urls, custom, env)
  {
    match ChooseCode(urls, custom, env)
    case Abort(status, message) => HttpError(status, message)
    case Chosen(code) =>
      if env.saveFault then HttpError(StatusInternalServerError, "failed to save")
      else Reply(StatusCreated, ShortenResp(code, ShortURL(baseURL, code), url))
  }

  /** The Save a shorten request performs: exactly one, for the chosen code,
      and none once an error has been answered. */
  function SaveCalls(urls: map<string, string>, url: string, custom: string, env: Env): (calls: seq<Write>)
    requires WellFormed(env.attempts) && Terminates(urls, custom, env)
    ensures |calls| <= 1
    ensures |calls| == 1 <==> ChooseCode(urls, custom, env).Chosen?
  {
    match ChooseCode(urls, custom, env)
    case Abort(_, _) => []
    case Chosen(code) => [PutURL(code, url)]
  }

  class Server {
    const store: Store
    const baseURL: string

    /** A hit counter exists only for a code that has a mapping. The Store
        does not enforce this (IncHit on an unmapped code creates a counter);
        it holds because the handlers call IncHit only after a successful Get. */
    ghost predicate Valid()
      reads this, store
    {
      store.Valid() && store.hits.Keys <= store.urls.Keys
    }

    /** NewServer: the base URL loses all its trailing slashes. */
    constructor (store: Store, baseURL: string)
      ensures this.store == store
      ensures this.baseURL == TrimRight(baseURL, "/")
    {
      this.store := store;
      this.baseURL := TrimRight(baseURL, "/");
    }

    /** HandleShorten after decoding and URL validation. The Exists check and
        the Save are separate transactions: run concurrently, two requests for
        one custom code can both pass the check; this model is sequential. */
    method HandleShorten(url: string, custom: string, env: Env) returns (resp: Reply<ShortenResp>)
      requires Valid()
      requires WellFormed(env.attempts) && Terminates(store.urls, custom, env)
      modifies store
      ensures Valid()
      ensures resp == Shorten(old(store.urls), baseURL, url, custom, env)
      ensures store.urls == if resp.Reply? then old(store.urls)[resp.body.code := url] else old(store.urls)
      ensures store.hits == old(store.hits)
      ensures store.writes == old(store.writes) + SaveCalls(old(store.urls), url, custom, env)
    {
      var code := TrimSpace(custom);
      if code != "" {
        var taken := store.Exists(code, env.customExistsFault);
        if taken.Err? {
          return HttpError(StatusInternalServerError, "store error");
        }
        if taken.value {
          return HttpError(StatusConflict, "custom code already exists");
        }
      } else {
        var i := 0;
        while true
          invariant 0 <= i < |env.attempts|
          invariant forall j | 0 <= j < i :: !Settles(env.attempts[j], store.urls)
          invariant exists k | i <= k < |env.attempts| :: Settles(env.attempts[k], store.urls)
          invariant store.urls == old(store.urls) && store.hits == old(store.hits)
          invariant store.writes == old(store.writes)
          decreases |env.attempts| - i
        {
          var c := GenerateCode(CodeLength, env.attempts[i].draws);
          if c.Err? {
            assert i == FirstSettling(env.attempts, store.urls);
            return HttpError(StatusInternalServerError, "code generation failed");
          }
          var taken := store.Exists(c.value, env.attempts[i].existsFault);
          if taken.Err? {
            assert i == FirstSettling(env.attempts, store.urls);
            return HttpError(StatusInternalServerError, "store error");
          }
          if !taken.value {
            assert i == FirstSettling(env.attempts, store.urls);
            code := c.value;
            break;
          }
          i := i + 1;
        }
      }
      var saved := store.Save(code, url, env.saveFault);
      if saved.Err? {
        return HttpError(StatusInternalServerError, "failed to save");
      }
      resp := Reply(StatusCreated, ShortenResp(code, ShortURL(baseURL, code), url));
    }

    /** HandleRedirect: a successful lookup is followed by a best-effort
        IncHit whose failure does not change the answer. */
    method HandleRedirect(code: string, getFault: bool, incFault: bool) returns (resp: Reply<string>)
      requires Valid()
      modifies store
      ensures Valid()
      ensures resp.Reply? <==> code != "" && !getFault && code in old(store.urls)
      ensures resp.Reply? ==> resp == Reply(StatusFound, old(store.urls)[code])
      ensures resp.HttpError? ==> resp.status == if code != "" && getFault then StatusInternalServerError else StatusNotFound
      ensures store.urls == old(store.urls)
      ensures store.hits == if resp.Reply? && !incFault
                            then old(store.hits)[code := PutUint64(Incremented(old(store.Count(code))))]
                            else old(store.hits)
      ensures resp.Reply? && !incFault ==> store.Count(code) == Incremented(old(store.Count(code)))
      ensures store.writes == old(store.writes) + if resp.Reply? then [PutHit(code)] else []
    {
      if code == "" {
        return HttpError(StatusNotFound, "404 page not found");
      }
      var u := store.Get(code, getFault);
      if u.Err? {
        if u.error == NotFound {
          return HttpError(StatusNotFound, "404 page not found");
        }
        return HttpError(StatusInternalServerError, "store error");
      }
      var _ := store.IncHit(code, incFault);
      resp := Reply(StatusFound, u.value);
    }

    /** HandleGetURL: reads the mapping and its hit count; a failed Hits read
        is reported as 0 hits. It changes nothing. */
    method HandleGetURL(code: string, getFault: bool, hitsFault: bool) returns (resp: Reply<URLInfo>)
      requires Valid()
      ensures code == "" ==> resp == HttpError(StatusBadRequest, "missing code")
      ensures code != "" && getFault ==> resp == HttpError(StatusInternalServerError, "store error")
      ensures code != "" && !getFault && code !in store.urls ==> resp == HttpError(StatusNotFound, "not found")
      ensures resp.Reply? <==> code != "" && !getFault && code in store.urls
      ensures resp.Reply? ==> resp.status == StatusOK && resp.body.code == code && resp.body.url == store.urls[code]
      ensures resp.Reply? ==> resp.body.shortURL == ShortURL(baseURL, code)
      ensures resp.Reply? ==> resp.body.hits == if hitsFault then 0 else store.Count(code)
    {
      if code == "" {
        return HttpError(StatusBadRequest, "missing code");
      }
      var u := store.Get(code, getFault);
      if u.Err? {
        if u.error == NotFound {
          return HttpError(StatusNotFound, "not found");
        }
        return HttpError(StatusInternalServerError, "store error");
      }
      var h := store.Hits(code, hitsFault);
      var hits: uint64 := if h.Ok? then h.value else 0;
      resp := Reply(StatusOK, URLInfo(code, u.value, hits, ShortURL(baseURL, code)));
    }
  }

  /** A non-blank custom code is refused with 409 exactly when its Exists
      check succeeds and finds it taken. */
  lemma ShortenConflictIff(urls: map<string, string>, baseURL: string, url: string, custom: string, env: Env)
    requires WellFormed(env.attempts) && Terminates(urls, custom, env)
    ensures Shorten(urls, baseURL, url, custom, env).status == StatusConflict
        <==> TrimSpace(custom) != "" && !env.customExistsFault && TrimSpace(custom) in urls
  {
  }

  /** A created mapping is for a non-empty code that had no mapping before,
      and the reply carries the request URL and the code's short URL. */
  lemma ShortenCreatesFreshCode(urls: map<string, string>, baseURL: string, url: string, custom: string, env: Env)
    requires WellFormed(env.attempts) && Terminates(urls, custom, env)
    requires Shorten(urls, baseURL, url, custom, env).Reply?
    ensures var r := Shorten(urls, baseURL, url, custom, env);
      && r.status == StatusCreated
      && r.body.code != "" && r.body.code !in urls
      && r.body.original == url
      && r.body.shortURL == ShortURL(baseURL, r.body.code)
  {
    if TrimSpace(custom) == "" {
      var a := env.attempts[FirstSettling(env.attempts, urls)];
      assert |Render(a.draws).value| == CodeLength;
    }
  }

  /** A non-blank custom code is used as given, after trimming. */
  lemma ShortenUsesTrimmedCustom(urls: map<string, string>, baseURL: string, url: string, custom: string, env: Env)
    requires WellFormed(env.attempts) && Terminates(urls, custom, env)
    requires TrimSpace(custom) != ""
    requires Shorten(urls, baseURL, url, custom, env).Reply?
    ensures Shorten(urls, baseURL, url, custom, env).body.code == TrimSpace(custom)
  {
  }

  /** Without a custom code the created code is the generator's output on the
      first pass that found a free code: six base-62 characters, and every
      earlier pass generated a code that was already taken. */
  lemma ShortenGeneratedCode(urls: map<string, string>, baseURL: string, url: string, custom: string, env: Env)
    requires WellFormed(env.attempts) && Terminates(urls, custom, env)
    requires TrimSpace(custom) == ""
    requires Shorten(urls, baseURL, url, custom, env).Reply?
    ensures var code := Shorten(urls, baseURL, url, custom, env).body.code;
      && |code| == CodeLength
      && (forall c | c in code :: IsBase62(c))
      && code !in urls
      && var k := FirstSettling(env.attempts, urls);
      && Render(env.attempts[k].draws) == Ok(code)
      && forall j | 0 <= j < k ::
           && Render(env.attempts[j].draws).Ok?
           && !env.attempts[j].existsFault
           && Render(env.attempts[j].draws).value in urls
  {
    var k := FirstSettling(env.attempts, urls);
    RenderedCodeIsBase62(env.attempts[k].draws);
  }

  /** A custom code that is blank after trimming takes the generated branch:
      the request behaves as one without a custom code and never conflicts. */
  lemma ShortenBlankCustom(urls: map<string, string>, baseURL: string, url: string, custom: string, env: Env)
    requires WellFormed(env.attempts) && Terminates(urls, custom, env)
    requires TrimSpace(custom) == ""
    ensures TrimSpace("") == "" && Terminates(urls, "", env)
    ensures Shorten(urls, baseURL, url, custom, env) == Shorten(urls, baseURL, url, "", env)
    ensures Shorten(urls, baseURL, url, custom, env).status != StatusConflict
  {
    assert TrimSpace("") == "";
  }

  /** Two successful requests in a row get different codes: the second sees
      the first one's mapping. */
  lemma CreatedCodesDistinct(urls: map<string, string>, baseURL: string,
                             url1: string, custom1: string, env1: Env,
                             url2: string, custom2: string, env2: Env)
    requires WellFormed(env1.attempts) && Terminates(urls, custom1, env1)
    requires Shorten(urls, baseURL, url1, custom1, env1).Reply?
    requires var urls' := urls[Shorten(urls, baseURL, url1, custom1, env1).body.code := url1];
      && WellFormed(env2.attempts) && Terminates(urls', custom2, env2)
      && Shorten(urls', baseURL, url2, custom2, env2).Reply?
    ensures var code1 := Shorten(urls, baseURL, url1, custom1, env1).body.code;
      Shorten(urls[code1 := url1], baseURL, url2, custom2, env2).body.code != code1
  {
    var code1 := Shorten(urls, baseURL, url1, custom1, env1).body.code;
    ShortenCreatesFreshCode(urls[code1 := url1], baseURL, url2, custom2, env2);
  }

  /** Under the server's base URL, the short URL is the base URL without its
      trailing slashes, one slash, then the code; the base URL itself was
      that prefix followed by slashes only. */
  lemma ServerShortURL(baseURL: string, code: string)
    ensures var b := TrimRight(baseURL, "/");
      && baseURL == b + baseURL[|b|..]
      && (forall k | |b| <= k < |baseURL| :: baseURL[k] == '/')
      && ShortURL(b, code)[..|b|] == b
      && ShortURL(b, code)[|b|] == '/'
      && ShortURL(b, code)[|b| + 1..] == code
      && (b != "" ==> ShortURL(b, code)[|b| - 1] != '/')
  {
    var b := TrimRight(baseURL, "/");
    TrimRightShape(baseURL, "/");
    var s := ShortURL(b, code);
    assert s[..|b|] == b;
    assert s[|b| + 1..] == code;
  }

  /** Different codes have different short URLs under one base URL. */
  lemma ShortURLInjective(baseURL: string, code1: string, code2: string)
    requires ShortURL(baseURL, code1) == ShortURL(baseURL, code2)
    ensures code1 == code2
  {
    assert code1 == ShortURL(baseURL, code1)[|baseURL| + 1..];
    assert code2 == ShortURL(baseURL, code2)[|baseURL| + 1..];
  }
}
