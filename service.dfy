/** ExternalUserService: cache-then-fetch over an API client, with the
    pagination loop that aggregates every page into one list.

    The API client is a pair of fixed functions (what GetUserByIdAsync and
    GetUsersPageAsync return or throw for each argument); the clock is the
    explicit `now` argument, in seconds. A ghost log records every call made
    to the API client. */
module Service {
  import opened Prelude
  import opened Text
  import opened Models
  import opened Client

  // ---------------------------------------------------------------- cache keys

  const AllUsersKey := "all_users"

  function UserKey(id: int): string
  {
    "user_" + IntToString(id)
  }

  function PageKey(page: int): string
  {
    "users_page_" + IntToString(page)
  }

  /** Keys are injective in their argument and the three namespaces are disjoint. */
  lemma CacheKeysAreDistinct(a: int, b: int)
    ensures UserKey(a) == UserKey(b) <==> a == b
    ensures PageKey(a) == PageKey(b) <==> a == b
    ensures UserKey(a) != PageKey(b)
    ensures UserKey(a) != AllUsersKey && PageKey(b) != AllUsersKey
  {
    IntToStringInjective(a, b);
    PrefixCancels("user_", IntToString(a), IntToString(b));
    PrefixCancels("users_page_", IntToString(a), IntToString(b));
    KeysDiffer(a, b);
  }

  lemma PrefixCancels(p: string, x: string, y: string)
    ensures p + x == p + y <==> x == y
  {
    if p + x == p + y {
      assert x == (p + x)[|p|..] && y == (p + y)[|p|..];
    }
  }

  lemma KeysDiffer(a: int, b: int)
    ensures UserKey(a) != PageKey(b)
    ensures UserKey(a) != AllUsersKey && PageKey(b) != AllUsersKey
  {
    assert UserKey(a)[4] == '_' && PageKey(b)[4] == 's';
    assert UserKey(a)[0] == 'u' && PageKey(b)[0] == 'u' && AllUsersKey[0] == 'a';
  }

  /** The key of a single user is recognisable by its "user_" prefix; the
      other two kinds of key do not have it. */
  predicate IsUserKey(key: string)
  {
    HasPrefix(key, "user_")
  }

  lemma KeyKinds(id: int, page: int)
    ensures IsUserKey(UserKey(id))
    ensures !IsUserKey(PageKey(page)) && !IsUserKey(AllUsersKey)
  {
    assert UserKey(id)[..5] == "user_";
    assert PageKey(page)[..5] != "user_" by { assert PageKey(page)[..5][4] == 's'; }
  }

  // ---------------------------------------------------------------- the cache

  datatype CacheValue = OneUser(user: User) | UserList(users: seq<User>)

  /** A cache entry with its absolute expiration time. */
  datatype CacheEntry = CacheEntry(value: CacheValue, expiresAt: int)

  type Cache = map<string, CacheEntry>

  /** An entry is live until its expiration time; at that instant it is gone. */
  predicate Live(cache: Cache, key: string, now: int)
  {
    key in cache && now < cache[key].expiresAt
  }

  /** TryGetValue<User>: a live entry that holds a user. */
  function CachedUser(cache: Cache, key: string, now: int): (r: Option<User>)
    ensures r.Some? <==> Live(cache, key, now) && cache[key].value.OneUser?
    ensures r.Some? ==> cache[key].value == OneUser(r.value)
  {
    if Live(cache, key, now) && cache[key].value.OneUser? then Some(cache[key].value.user) else None
  }

  /** TryGetValue<IEnumerable<User>>: a live entry that holds a list. */
  function CachedUsers(cache: Cache, key: string, now: int): (r: Option<seq<User>>)
    ensures r.Some? <==> Live(cache, key, now) && cache[key].value.UserList?
    ensures r.Some? ==> cache[key].value == UserList(r.value)
  {
    if Live(cache, key, now) && cache[key].value.UserList? then Some(cache[key].value.users) else None
  }

  /** Reading back what was just written: a hit with the written value, of
      the type the lookup asks for, until its expiration time and a miss from
      then on. */
  lemma CachedAfterWrite(cache: Cache, key: string, v: CacheValue, expiresAt: int, now: int)
    ensures var c := cache[key := CacheEntry(v, expiresAt)];
            && CachedUser(c, key, now) == (if now < expiresAt && v.OneUser? then Some(v.user) else None)
            && CachedUsers(c, key, now) == (if now < expiresAt && v.UserList? then Some(v.users) else None)
  {
  }

  /** A write to one key leaves every other key's lookup as it was. */
  lemma CachedAfterOtherWrite(cache: Cache, key: string, other: string, e: CacheEntry, now: int)
    requires other != key
    ensures CachedUser(cache[key := e], other, now) == CachedUser(cache, other, now)
    ensures CachedUsers(cache[key := e], other, now) == CachedUsers(cache, other, now)
  {
  }

  /** An entry whose expiration time has come is a miss for both lookups, and
      a hit at some time is a hit, with the same value, at every earlier time. */
  lemma CachedExpiry(cache: Cache, key: string, earlier: int, now: int)
    requires earlier <= now
    ensures key in cache && cache[key].expiresAt <= now ==>
              CachedUser(cache, key, now).None? && CachedUsers(cache, key, now).None?
    ensures CachedUser(cache, key, now).Some? ==> CachedUser(cache, key, earlier) == CachedUser(cache, key, now)
    ensures CachedUsers(cache, key, now).Some? ==> CachedUsers(cache, key, earlier) == CachedUsers(cache, key, now)
  {
  }

  /** Every entry holds the type its key's namespace stores: a user under a
      "user_" key, a list under every other key. */
  predicate WellTyped(cache: Cache)
  {
    forall k :: k in cache ==> (cache[k].value.OneUser? <==> IsUserKey(k))
  }

  /** Storing a user under a user key, or a list under any other key, keeps
      the cache well-typed. */
  lemma WellTypedAfterWrite(cache: Cache, key: string, e: CacheEntry)
    requires WellTyped(cache)
    requires e.value.OneUser? <==> IsUserKey(key)
    ensures WellTyped(cache[key := e])
  {
  }

  /** In a well-typed cache a live entry is always a hit for the lookup its
      key is used with: the typed lookup never rejects it. */
  lemma LiveEntriesAreHits(cache: Cache, id: int, page: int, now: int)
    requires WellTyped(cache)
    ensures Live(cache, UserKey(id), now) ==> CachedUser(cache, UserKey(id), now).Some?
    ensures Live(cache, PageKey(page), now) ==> CachedUsers(cache, PageKey(page), now).Some?
    ensures Live(cache, AllUsersKey, now) ==> CachedUsers(cache, AllUsersKey, now).Some?
  {
    KeyKinds(id, page);
  }

  // ---------------------------------------------------------------- the API client

  type UserSource = int -> Result<Option<User>, ClientError>

  type PageSource = int -> Result<Option<UserListResponse>, ClientError>

  datatype ApiCall = FetchUser(id: int) | FetchPage(page: int)

  /** `response?.Data ?? new List<User>()`. */
  function PageData(response: Option<UserListResponse>): seq<User>
  {
    if response.Some? && response.value.data.Some? then response.value.data.value else []
  }

  /** Every page the client returns reports at most `bound` pages; without
      such a bound the aggregation loop need not terminate. */
  ghost predicate BoundedPages(pages: PageSource, bound: nat)
  {
    forall p :: pages(p).Success? && pages(p).value.Some? ==> pages(p).value.value.totalPages <= bound
  }

  /** The do-while condition after fetching `page`, with `page` already incremented. */
  predicate Continues(response: Option<UserListResponse>, page: int)
  {
    response.Some? && page + 1 <= response.value.totalPages
  }

  // ---------------------------------------------------------------- aggregation, specified

  function Prepend(prefix: seq<User>, r: Result<seq<User>, ClientError>): Result<seq<User>, ClientError>
  {
    if r.Success? then Success(prefix + r.value) else r
  }

  /** The page calls the loop makes from `page` on: consecutive pages, at
      least one, never beyond the bound. */
  function CallsFrom(pages: PageSource, page: int, bound: nat): (r: seq<ApiCall>)
    requires BoundedPages(pages, bound)
    ensures 1 <= |r|
    ensures forall i :: 0 <= i < |r| ==> r[i] == FetchPage(page + i)
    ensures |r| > 1 ==> page + |r| - 1 <= bound
    decreases bound - page
  {
    if pages(page).Success? && Continues(pages(page).value, page) then
      [FetchPage(page)] + CallsFrom(pages, page + 1, bound)
    else
      [FetchPage(page)]
  }

  /** What the loop returns from `page` on: the first failure, or the
      concatenated data of the pages it fetches. */
  function AllUsersFrom(pages: PageSource, page: int, bound: nat): Result<seq<User>, ClientError>
    requires BoundedPages(pages, bound)
    decreases bound - page
  {
    match pages(page)
    case Failure(e) => Failure(e)
    case Success(response) =>
      if Continues(response, page) then
        Prepend(PageData(response), AllUsersFrom(pages, page + 1, bound))
      else
        Success(PageData(response))
  }

  /** The aggregate from `page` on fails with the first page's own error when
      that page fails, and with some later page's error otherwise; when it
      succeeds it starts with the first page's data. */
  lemma {:induction false} AggregateExtendsFirstPage(pages: PageSource, page: int, bound: nat)
    requires BoundedPages(pages, bound)
    ensures pages(page).Failure? ==> AllUsersFrom(pages, page, bound) == Failure(pages(page).error)
    ensures AllUsersFrom(pages, page, bound).Success? ==>
              pages(page).Success? && PageData(pages(page).value) <= AllUsersFrom(pages, page, bound).value
    ensures AllUsersFrom(pages, page, bound).Failure? ==>
              exists k :: page <= k && pages(k) == Failure(AllUsersFrom(pages, page, bound).error)
    decreases bound - page
  {
    if pages(page).Success? && Continues(pages(page).value, page) {
      AggregateExtendsFirstPage(pages, page + 1, bound);
      var rest := AllUsersFrom(pages, page + 1, bound);
      if rest.Failure? {
        var k :| page + 1 <= k && pages(k) == Failure(rest.error);
        assert page <= k;
      }
    }
  }

  /** What a page contributes: the list it carries, nothing for a null
      response or null data, and nothing for a default response. */
  lemma PageDataOfResponse(response: Option<UserListResponse>)
    ensures response.Some? && response.value.data.Some? ==> PageData(response) == response.value.data.value
    ensures PageData(response) == [] <==>
              response.None? || response.value.data.None? || response.value.data == Some([])
    ensures PageData(Some(DefaultUserListResponse)) == []
  {
  }

  /** The do-while goes on to page + 1 exactly when `page` succeeded with a
      non-null response whose totalPages is at least page + 1. */
  lemma NextPageFetchedExactly(pages: PageSource, page: int, bound: nat)
    requires BoundedPages(pages, bound)
    ensures |CallsFrom(pages, page, bound)| > 1 <==>
              pages(page).Success? && pages(page).value.Some? && page + 1 <= pages(page).value.value.totalPages
    ensures |CallsFrom(pages, page, bound)| > 1 ==> CallsFrom(pages, page, bound)[1] == FetchPage(page + 1)
  {
  }

  /** A default response on page 1 (zero totalPages, empty data) ends the
      aggregation with an empty list after a single fetch. */
  lemma DefaultResponseEndsAggregation(pages: PageSource, bound: nat)
    requires BoundedPages(pages, bound)
    requires pages(1) == Success(Some(DefaultUserListResponse))
    ensures CallsFrom(pages, 1, bound) == [FetchPage(1)]
    ensures AllUsersFrom(pages, 1, bound) == Success([])
  {
  }

  /** The data that page p contributes when it is fetched successfully. */
  function DataAt(pages: PageSource, p: int): seq<User>
  {
    if pages(p).Success? then PageData(pages(p).value) else []
  }

  /** The data of the n pages lo, lo + 1, ..., in page order. */
  function ConcatPages(pages: PageSource, lo: int, n: nat): seq<User>
    decreases n
  {
    if n == 0 then [] else DataAt(pages, lo) + ConcatPages(pages, lo + 1, n - 1)
  }

  /** Each of the n pages lo, lo + 1, ... is answered without an exception. */
  predicate AllSucceed(pages: PageSource, lo: int, n: nat)
    decreases n
  {
    n == 0 || (pages(lo).Success? && AllSucceed(pages, lo + 1, n - 1))
  }

  lemma PrependLaws(a: seq<User>, b: seq<User>, r: Result<seq<User>, ClientError>)
    ensures Prepend([], r) == r
    ensures Prepend(a, Prepend(b, r)) == Prepend(a + b, r)
  {
    if r.Success? {
      assert [] + r.value == r.value;
      assert a + (b + r.value) == (a + b) + r.value;
    }
  }

  /** The aggregate fails exactly when one of the fetched pages fails, and
      then with the error of the last page fetched; otherwise it is the
      concatenation of the fetched pages' data, in page order. */
  lemma {:induction false} AggregationIsConcatenation(pages: PageSource, page: int, bound: nat)
    requires BoundedPages(pages, bound)
    ensures var calls := CallsFrom(pages, page, bound);
            var r := AllUsersFrom(pages, page, bound);
            && (r.Success? <==> AllSucceed(pages, page, |calls|))
            && (r.Success? ==> r.value == ConcatPages(pages, page, |calls|))
            && (r.Failure? ==> pages(page + |calls| - 1) == Failure(r.error))
    decreases bound - page
  {
    if pages(page).Success? && Continues(pages(page).value, page) {
      AggregationIsConcatenation(pages, page + 1, bound);
    } else if pages(page).Success? {
      assert ConcatPages(pages, page, 1) == DataAt(pages, page) + [];
    }
  }

  /** When every page 1..n reports totalPages = n and no response is null,
      the loop fetches pages 1..n in increasing order, each once, and returns
      their data concatenated in page order. */
  lemma UniformPages(pages: PageSource, bound: nat, n: nat)
    requires BoundedPages(pages, bound)
    requires n >= 1
    requires forall p :: 1 <= p <= n ==>
               pages(p).Success? && pages(p).value.Some? && pages(p).value.value.totalPages == n
    ensures |CallsFrom(pages, 1, bound)| == n
    ensures forall i :: 0 <= i < n ==> CallsFrom(pages, 1, bound)[i] == FetchPage(i + 1)
    ensures AllUsersFrom(pages, 1, bound) == Success(ConcatPages(pages, 1, n))
  {
    UniformPagesFrom(pages, bound, n, 1);
  }

  lemma {:induction false} UniformPagesFrom(pages: PageSource, bound: nat, n: nat, k: int)
    requires BoundedPages(pages, bound)
    requires 1 <= k <= n
    requires forall p :: 1 <= p <= n ==>
               pages(p).Success? && pages(p).value.Some? && pages(p).value.value.totalPages == n
    ensures |CallsFrom(pages, k, bound)| == n - k + 1
    ensures AllUsersFrom(pages, k, bound) == Success(ConcatPages(pages, k, n - k + 1))
    decreases n - k
  {
    assert pages(k).Success? && pages(k).value.Some?;
    if k < n {
      UniformPagesFrom(pages, bound, n, k + 1);
    } else {
      assert !Continues(pages(k).value, k);
      assert AllUsersFrom(pages, k, bound) == Success(PageData(pages(k).value));
      assert ConcatPages(pages, k, 1) == DataAt(pages, k) + ConcatPages(pages, k + 1, 0);
      assert DataAt(pages, k) + [] == PageData(pages(k).value);
    }
  }

  /** The loop ends right after a page that failed, was null, or reports no
      page beyond itself: exactly one fetch from there. With page 1 and
      totalPages <= 1 this is the single fetch a do-while always makes. */
  lemma AggregationStops(pages: PageSource, page: int, bound: nat)
    requires BoundedPages(pages, bound)
    requires pages(page).Success? ==> (pages(page).value.None? || pages(page).value.value.totalPages <= page)
    ensures CallsFrom(pages, page, bound) == [FetchPage(page)]
    ensures AllUsersFrom(pages, page, bound) ==
              if pages(page).Success? then Success(PageData(pages(page).value)) else Failure(pages(page).error)
  {
  }

  /** A page whose `data` is null contributes nothing, and the loop goes on. */
  lemma NullDataStillContinues(pages: PageSource, page: int, bound: nat)
    requires BoundedPages(pages, bound)
    requires pages(page).Success? && pages(page).value.Some?
    requires pages(page).value.value.data.None? && page + 1 <= pages(page).value.value.totalPages
    ensures CallsFrom(pages, page, bound) == [FetchPage(page)] + CallsFrom(pages, page + 1, bound)
    ensures AllUsersFrom(pages, page, bound) == AllUsersFrom(pages, page + 1, bound)
  {
    var r := AllUsersFrom(pages, page + 1, bound);
    if r.Success? {
      assert [] + r.value == r.value;
    }
  }

  /** One turn of the loop body after a successful fetch of `page`, with
      `acc` the users gathered so far. */
  lemma AggregationStep(pages: PageSource, page: int, bound: nat, acc: seq<User>)
    requires BoundedPages(pages, bound) && pages(page).Success?
    ensures var response := pages(page).value;
            Continues(response, page) ==>
              Prepend(acc, AllUsersFrom(pages, page, bound)) ==
                Prepend(acc + PageData(response), AllUsersFrom(pages, page + 1, bound)) &&
              CallsFrom(pages, page, bound) == [FetchPage(page)] + CallsFrom(pages, page + 1, bound)
    ensures var response := pages(page).value;
            !Continues(response, page) ==>
              Prepend(acc, AllUsersFrom(pages, page, bound)) == Success(acc + PageData(response)) &&
              CallsFrom(pages, page, bound) == [FetchPage(page)]
  {
    PrependLaws(acc, PageData(pages(page).value), AllUsersFrom(pages, page + 1, bound));
  }

  /** The aggregation loop's invariant before fetching `page`: the users
      gathered so far followed by what the rest of the loop gathers is the
      whole aggregate, and the calls made so far followed by the calls still
      to come are all of the loop's calls. */
  ghost predicate LoopInvariant(pages: PageSource, bound: nat, page: int, acc: seq<User>, made: seq<ApiCall>)
    requires BoundedPages(pages, bound)
  {
    && Prepend(acc, AllUsersFrom(pages, page, bound)) == AllUsersFrom(pages, 1, bound)
    && made + CallsFrom(pages, page, bound) == CallsFrom(pages, 1, bound)
  }

  lemma LoopStart(pages: PageSource, bound: nat)
    requires BoundedPages(pages, bound)
    ensures LoopInvariant(pages, bound, 1, [], [])
  {
    PrependLaws([], [], AllUsersFrom(pages, 1, bound));
    assert [] + CallsFrom(pages, 1, bound) == CallsFrom(pages, 1, bound);
  }

  /** One turn of the loop: after fetching `page` the loop either returns the
      page's error, goes on with the invariant at page + 1, or stops with the
      whole aggregate gathered; in every case the fetch is the next call. */
  lemma LoopStep(pages: PageSource, bound: nat, page: int, acc: seq<User>, made: seq<ApiCall>)
    requires BoundedPages(pages, bound) && LoopInvariant(pages, bound, page, acc, made)
    ensures pages(page).Failure? ==>
              AllUsersFrom(pages, 1, bound) == Failure(pages(page).error) &&
              made + [FetchPage(page)] == CallsFrom(pages, 1, bound)
    ensures pages(page).Success? && Continues(pages(page).value, page) ==>
              page + 1 <= bound &&
              LoopInvariant(pages, bound, page + 1, acc + PageData(pages(page).value), made + [FetchPage(page)])
    ensures pages(page).Success? && !Continues(pages(page).value, page) ==>
              AllUsersFrom(pages, 1, bound) == Success(acc + PageData(pages(page).value)) &&
              made + [FetchPage(page)] == CallsFrom(pages, 1, bound)
  {
    if pages(page).Success? {
      AggregationStep(pages, page, bound, acc);
      if Continues(pages(page).value, page) {
        assert made + ([FetchPage(page)] + CallsFrom(pages, page + 1, bound)) ==
               (made + [FetchPage(page)]) + CallsFrom(pages, page + 1, bound);
      }
    }
  }

  // ---------------------------------------------------------------- the service

  class ExternalUserService {
    const userApi: UserSource
    const pageApi: PageSource
    /** CacheExpirationMinutes, in seconds. */
    const ttl: int
    var cache: Cache
    ghost var calls: seq<ApiCall>

    ghost predicate Valid()
      reads this
    {
      ttl > 0 && WellTyped(cache)
    }

    constructor (userApi: UserSource, pageApi: PageSource, options: ExternalApiOptions)
      requires options.cacheExpirationMinutes > 0
      ensures Valid()
      ensures this.userApi == userApi && this.pageApi == pageApi
      ensures ttl == options.cacheExpirationMinutes * 60
      ensures cache == map[] && calls == []
    {
      this.userApi := userApi;
      this.pageApi := pageApi;
      ttl := options.cacheExpirationMinutes * 60;
      cache := map[];
      calls := [];
    }

    /** GetUserByIdAsync. */
    method GetUserById(id: int, now: int) returns (r: Result<Option<User>, ClientError>)
      requires Valid()
      modifies this
      ensures Valid()
      // a hit returns the stored user and calls nothing
      ensures CachedUser(old(cache), UserKey(id), now).Some? ==>
                r == Success(CachedUser(old(cache), UserKey(id), now)) &&
                cache == old(cache) && calls == old(calls)
      // a miss calls the client once; only a user is stored, a null or an error is not
      ensures CachedUser(old(cache), UserKey(id), now).None? ==>
                r == userApi(id) && calls == old(calls) + [FetchUser(id)] &&
                cache == if r.Success? && r.value.Some?
                         then old(cache)[UserKey(id) := CacheEntry(OneUser(r.value.value), now + ttl)]
                         else old(cache)
    {
      var key := UserKey(id);
      var cached := CachedUser(cache, key, now);
      if cached.Some? {
        return Success(cached);
      }
      r := userApi(id);
      calls := calls + [FetchUser(id)];
      if r.Success? && r.value.Some? {
        KeyKinds(id, 0);
        WellTypedAfterWrite(cache, key, CacheEntry(OneUser(r.value.value), now + ttl));
        cache := cache[key := CacheEntry(OneUser(r.value.value), now + ttl)];
      }
    }

    /** GetUsersPageAsync. */
    method GetUsersPage(page: int, now: int) returns (r: Result<seq<User>, ClientError>)
      requires Valid()
      modifies this
      ensures Valid()
      ensures CachedUsers(old(cache), PageKey(page), now).Some? ==>
                r == Success(CachedUsers(old(cache), PageKey(page), now).value) &&
                cache == old(cache) && calls == old(calls)
      // a miss calls the client once; a null response or null data is an
      // empty list, and that list is stored; an error stores nothing
      ensures CachedUsers(old(cache), PageKey(page), now).None? ==>
                calls == old(calls) + [FetchPage(page)] &&
                (pageApi(page).Failure? ==> r == Failure(pageApi(page).error) && cache == old(cache)) &&
                (pageApi(page).Success? ==>
                   r == Success(PageData(pageApi(page).value)) &&
                   cache == old(cache)[PageKey(page) := CacheEntry(UserList(r.value), now + ttl)])
    {
      var key := PageKey(page);
      var cached := CachedUsers(cache, key, now);
      if cached.Some? {
        return Success(cached.value);
      }
      var response := pageApi(page);
      calls := calls + [FetchPage(page)];
      if response.Failure? {
        return Failure(response.error);
      }
      var users := PageData(response.value);
      KeyKinds(0, page);
      WellTypedAfterWrite(cache, key, CacheEntry(UserList(users), now + ttl));
      cache := cache[key := CacheEntry(UserList(users), now + ttl)];
      r := Success(users);
    }

    /** GetAllUsersAsync. `bound` is any bound on the totalPages the client reports. */
    method GetAllUsers(now: int, ghost bound: nat) returns (r: Result<seq<User>, ClientError>)
      requires Valid()
      requires BoundedPages(pageApi, bound)
      modifies this
      ensures Valid()
      ensures CachedUsers(old(cache), AllUsersKey, now).Some? ==>
                r == Success(CachedUsers(old(cache), AllUsersKey, now).value) &&
                cache == old(cache) && calls == old(calls)
      // a miss runs the aggregation loop and stores only the final list,
      // under "all_users"; no page key is written, and nothing on an error
      ensures CachedUsers(old(cache), AllUsersKey, now).None? ==>
                r == AllUsersFrom(pageApi, 1, bound) &&
                calls == old(calls) + CallsFrom(pageApi, 1, bound) &&
                cache == if r.Success?
                         then old(cache)[AllUsersKey := CacheEntry(UserList(r.value), now + ttl)]
                         else old(cache)
    {
      var cached := CachedUsers(cache, AllUsersKey, now);
      if cached.Some? {
        return Success(cached.value);
      }
      var allUsers: seq<User> := [];
      var page := 1;
      ghost var made: seq<ApiCall> := [];
      LoopStart(pageApi, bound);
      while true
        invariant 1 <= page && (page > 1 ==> page <= bound)
        invariant LoopInvariant(pageApi, bound, page, allUsers, made)
        invariant calls == old(calls) + made
        invariant cache == old(cache)
        decreases bound + 1 - page
      {
        var response := pageApi(page);
        LoopStep(pageApi, bound, page, allUsers, made);
        calls := calls + [FetchPage(page)];
        made := made + [FetchPage(page)];
        if response.Failure? {
          assert made == CallsFrom(pageApi, 1, bound);
          return Failure(response.error);
        }
        ghost var before := allUsers;
        if response.value.Some? && response.value.value.data.Some? {
          allUsers := allUsers + response.value.value.data.value;
        }
        assert allUsers == before + PageData(response.value);
        page := page + 1;
        if !(response.value.Some? && page <= response.value.value.totalPages) {
          assert AllUsersFrom(pageApi, 1, bound) == Success(allUsers);
          assert made == CallsFrom(pageApi, 1, bound);
          break;
        }
      }
      assert calls == old(calls) + CallsFrom(pageApi, 1, bound);
      KeyKinds(0, 0);
      WellTypedAfterWrite(cache, AllUsersKey, CacheEntry(UserList(allUsers), now + ttl));
      cache := cache[AllUsersKey := CacheEntry(UserList(allUsers), now + ttl)];
      r := Success(allUsers);
    }
  }

  // ---------------------------------------------------------------- call sequences

  /** A service built with the default options keeps entries for ten minutes. */
  method DefaultService(userApi: UserSource, pageApi: PageSource) returns (svc: ExternalUserService)
    ensures fresh(svc) && svc.Valid()
    ensures svc.ttl == 600 && svc.cache == map[] && svc.calls == []
  {
    svc := new ExternalUserService(userApi, pageApi, DefaultOptions);
  }

  /** A user found on the first call is served from the cache on a second
      call within the expiration window: the client is called once. */
  method RepeatedLookupHitsCache(svc: ExternalUserService, id: int, t1: int, t2: int)
    returns (first: Result<Option<User>, ClientError>, second: Result<Option<User>, ClientError>)
    requires svc.Valid()
    requires CachedUser(svc.cache, UserKey(id), t1).None?
    requires svc.userApi(id).Success? && svc.userApi(id).value.Some?
    requires t1 <= t2 < t1 + svc.ttl
    modifies svc
    ensures first == svc.userApi(id) && second == first
    ensures svc.calls == old(svc.calls) + [FetchUser(id)]
  {
    first := svc.GetUserById(id, t1);
    second := svc.GetUserById(id, t2);
  }

  /** An absent user (null from the client) is never cached: each call
      reaches the client again. */
  method AbsentUserIsRefetched(svc: ExternalUserService, id: int, t1: int, t2: int)
    returns (first: Result<Option<User>, ClientError>, second: Result<Option<User>, ClientError>)
    requires svc.Valid()
    requires CachedUser(svc.cache, UserKey(id), t1).None?
    requires svc.userApi(id) == Success(None)
    requires t1 <= t2
    modifies svc
    ensures first == Success(None) && second == Success(None)
    ensures svc.calls == old(svc.calls) + [FetchUser(id), FetchUser(id)]
    ensures svc.cache == old(svc.cache)
  {
    first := svc.GetUserById(id, t1);
    second := svc.GetUserById(id, t2);
  }

  /** A failed page fetch writes nothing, so the next call tries the client again. */
  method FailedPageIsRefetched(svc: ExternalUserService, page: int, t1: int, t2: int)
    returns (first: Result<seq<User>, ClientError>, second: Result<seq<User>, ClientError>)
    requires svc.Valid()
    requires CachedUsers(svc.cache, PageKey(page), t1).None?
    requires svc.pageApi(page).Failure?
    requires t1 <= t2
    modifies svc
    ensures first == second == Failure(svc.pageApi(page).error)
    ensures svc.calls == old(svc.calls) + [FetchPage(page), FetchPage(page)]
    ensures svc.cache == old(svc.cache)
  {
    first := svc.GetUsersPage(page, t1);
    second := svc.GetUsersPage(page, t2);
  }

  /** Two pages that both report totalPages = 2: pages 1 and 2 are fetched
      once each, in order, and the result is page 1's users then page 2's.
      A second call within the window returns the same list and calls nothing. */
  method TwoPageAggregation(svc: ExternalUserService, t1: int, t2: int, ghost bound: nat)
    returns (first: Result<seq<User>, ClientError>, second: Result<seq<User>, ClientError>)
    requires svc.Valid() && BoundedPages(svc.pageApi, bound)
    requires CachedUsers(svc.cache, AllUsersKey, t1).None?
    requires forall p :: 1 <= p <= 2 ==>
               svc.pageApi(p).Success? && svc.pageApi(p).value.Some? && svc.pageApi(p).value.value.totalPages == 2
    requires t1 <= t2 < t1 + svc.ttl
    modifies svc
    ensures first == Success(PageData(svc.pageApi(1).value) + PageData(svc.pageApi(2).value))
    ensures second == first
    ensures svc.calls == old(svc.calls) + [FetchPage(1), FetchPage(2)]
  {
    UniformPages(svc.pageApi, bound, 2);
    assert ConcatPages(svc.pageApi, 1, 2) == DataAt(svc.pageApi, 1) + (DataAt(svc.pageApi, 2) + []);
    assert DataAt(svc.pageApi, 2) + [] == DataAt(svc.pageApi, 2);
    first := svc.GetAllUsers(t1, bound);
    second := svc.GetAllUsers(t2, bound);
    assert CallsFrom(svc.pageApi, 1, bound) == [FetchPage(1), FetchPage(2)];
  }
}
