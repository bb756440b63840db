/** What the search endpoint decides about providers, cursors and pages. */
module Pagination {
  import opened Domain
  import opened SearchPlan
  import opened Sequences
  import opened Text
  import Cursor

  datatype Options = Options(
    enabled: seq<string>,
    allowRequestProviders: bool,
    codec: Cursor.Codec,
    supports: (string, QueryOptions) -> bool)

  datatype Payload = Payload(
    query: string,
    limit: int,
    cursor: Option<Cursor.Token>,
    timeoutParses: bool,
    providers: seq<string>,
    region: string,
    filters: Filters,
    options: QueryOptions)

  /** The provider's answer to one search. */
  datatype Answer = Answer(provider: string, results: nat, paginationKnown: bool, nextPageToken: string)

  /**
   * What one request meets: the clock when its cursor is opened, the search
   * service, and the clock, the size and the success when the next one is sealed.
   */
  datatype Exchange = Exchange(openedAt: int, search: Request -> Option<Answer>, sealedAt: int, tokenSize: nat, seals: bool)

  datatype Refusal =
    | InvalidQuery
    | InvalidLimit
    | CursorTooLong
    | InvalidTimeout
    | ProviderNotEnabled(name: string)
    | ProviderDuplicated(name: string)
    | ProviderSelectionForbidden
    | InvalidRegion
    | InvalidOptions(failure: Failure)
    | UnsupportedOptions
    | InvalidCursor
    | CursorExpired
    | CursorMismatch
    | ProviderUnavailable
    | PaginationSourceUnavailable
    | SearchFailed
    | CursorEncodingFailed

  datatype Page = Page(asked: Request, answer: Answer, next: Option<Cursor.Token>)

  // ------------------------------------------------------------------
  // The first page
  // ------------------------------------------------------------------

  function EnabledSet(enabled: seq<string>): set<string> {
    set name | name in enabled :: TrimSpace(name)
  }

  function ProviderName(raw: string): string {
    Lower(TrimSpace(raw))
  }

  /** The requested providers, enabled and without repetition. */
  function Validated(requested: seq<string>, enabled: set<string>): Result<seq<string>, Refusal> {
    if requested == [] then Ok([])
    else
      var n := |requested| - 1;
      var before :- Validated(requested[..n], enabled);
      var name := ProviderName(requested[n]);
      if name !in enabled then Err(ProviderNotEnabled(name))
      else if name in before then Err(ProviderDuplicated(name))
      else Ok(before + [name])
  }

  function Providers(requested: seq<string>, enabled: seq<string>): Result<seq<string>, Refusal> {
    if requested == [] then Ok(enabled) else Validated(requested, EnabledSet(enabled))
  }

  function Region(raw: string): Option<string> {
    var region := Lower(TrimSpace(raw));
    if region == "" || (|region| == 2 && 'a' <= region[0] <= 'z' && 'a' <= region[1] <= 'z') then Some(region) else None
  }

  predicate HasOptions(options: QueryOptions) {
    |options.exactPhrases| + |options.anyTerms| + |options.excludeTerms| + |options.titleTerms| + |options.fileTypes| > 0
  }

  /** The providers that can honour the query options, in the caller's order. */
  function Compatible(supports: (string, QueryOptions) -> bool, options: QueryOptions, providers: seq<string>): seq<string> {
    if !HasOptions(options) || providers == [] then providers
    else
      var n := |providers| - 1;
      Compatible(supports, options, providers[..n]) + if supports(providers[n], options) then [providers[n]] else []
  }

  function LimitOf(payload: Payload): int {
    if payload.limit == 0 then 10 else payload.limit
  }

  /** Everything up to the cursor: the request for the first page, or why there is none. */
  function Prepared(options: Options, payload: Payload): Result<Request, Refusal> {
    var query, limit := Squeeze(payload.query), LimitOf(payload);
    if query == "" || |query| > 256 then Err(InvalidQuery)
    else if limit < 1 || limit > 20 then Err(InvalidLimit)
    else if payload.cursor.Some? && payload.cursor.value.size > 4096 then Err(CursorTooLong)
    else if !payload.timeoutParses then Err(InvalidTimeout)
    else
      var providers :- Providers(payload.providers, options.enabled);
      if payload.providers != [] && !options.allowRequestProviders then Err(ProviderSelectionForbidden)
      else if Region(payload.region).None? then Err(InvalidRegion)
      else
        var raw := Request(query, providers, "", limit, 1, Region(payload.region).value, payload.filters, payload.options, "");
        match Normalized(raw)
        case Err(failure) => Err(InvalidOptions(failure))
        case Ok(request) =>
          var chain := Compatible(options.supports, request.options, request.providers);
          if chain == [] then Err(UnsupportedOptions) else Ok(request.(providers := chain))
  }

  // ------------------------------------------------------------------
  // The cursor
  // ------------------------------------------------------------------

  predicate HasFilters(request: Request) {
    request.region != "" || request.filters.included != [] || request.filters.excluded != [] || HasOptions(request.options)
  }

  /** A cursor belongs to a request: same fingerprint, limit and providers. Version 1 knows the query only. */
  predicate Matches(state: Cursor.State, request: Request) {
    && (if state.version == 1 then state.queryHash == TrimSpace(request.query) && !HasFilters(request)
        else state.fingerprint == Some(Fingerprint(request)))
    && state.limit == request.limit
    && state.providers == request.providers
  }

  /** The request that a cursor continues: its providers stand in for omitted ones, and its provider is pinned. */
  function Bound(options: Options, payload: Payload, request: Request, now: int): Result<Request, Refusal> {
    if payload.cursor.None? then Ok(request)
    else
      match Cursor.Decode(options.codec, payload.cursor.value, now)
      case Err(InvalidCursor) => Err(InvalidCursor)
      case Err(ExpiredCursor) => Err(CursorExpired)
      case Ok(state) =>
        var chained := request.(providers := if payload.providers == [] then state.providers else request.providers);
        if !Matches(state, chained) then Err(CursorMismatch)
        else Ok(chained.(provider := state.provider, page := state.page, pageToken := state.pageToken))
  }

  predicate HasMore(request: Request, answer: Answer) {
    request.page < 10 && if answer.paginationKnown then answer.nextPageToken != "" else answer.results == request.limit
  }

  /** What the next cursor seals. */
  function NextState(request: Request, answer: Answer): Cursor.State {
    Cursor.State(0, "", Some(Fingerprint(request)), answer.provider, request.providers,
                 request.page + 1, answer.nextPageToken, request.limit, None)
  }

  function Served(options: Options, request: Request, answer: Answer, x: Exchange): Page {
    Page(request, answer,
         if HasMore(request, answer)
         then Some(Cursor.Encode(options.codec, NextState(request, answer), x.sealedAt, x.tokenSize)) else None)
  }

  function Handled(options: Options, payload: Payload, x: Exchange): Result<Page, Refusal> {
    var first :- Prepared(options, payload);
    var request :- Bound(options, payload, first, x.openedAt);
    if request.provider != "" && request.provider !in EnabledSet(options.enabled) then Err(Refusal.ProviderUnavailable)
    else
      match x.search(request)
      case None => Err(if payload.cursor.Some? then PaginationSourceUnavailable else SearchFailed)
      case Some(answer) =>
        if HasMore(request, answer) && !x.seals then Err(CursorEncodingFailed) else Ok(Served(options, request, answer, x))
  }

  // ------------------------------------------------------------------
  // The handler
  // ------------------------------------------------------------------

  method ValidateProviders(requested: seq<string>, defaults: seq<string>) returns (r: Result<seq<string>, Refusal>)
    ensures r == Providers(requested, defaults)
  {
    if |requested| == 0 {
      return Ok(defaults);
    }
    var enabled, seen: set<string>, result: seq<string> := EnabledSet(defaults), {}, [];
    for i := 0 to |requested|
      invariant Validated(requested[..i], enabled) == Ok(result) && seen == Elements(result)
    {
      assert requested[..i + 1][..i] == requested[..i];
      var name := ProviderName(requested[i]);
      if name !in enabled {
        ValidationStops(requested, enabled, i + 1);
        return Err(ProviderNotEnabled(name));
      }
      if name in seen {
        ValidationStops(requested, enabled, i + 1);
        return Err(ProviderDuplicated(name));
      }
      seen, result := seen + {name}, result + [name];
    }
    assert requested[..|requested|] == requested;
    return Ok(result);
  }

  lemma {:induction false} ValidationStops(requested: seq<string>, enabled: set<string>, i: nat)
    requires i <= |requested| && Validated(requested[..i], enabled).Err?
    ensures Validated(requested, enabled) == Validated(requested[..i], enabled)
  {
    if i < |requested| {
      var n := |requested| - 1;
      assert requested[..n][..i] == requested[..i];
      ValidationStops(requested[..n], enabled, i);
    } else {
      assert requested[..i] == requested;
    }
  }

  method CompatibleProviders(supports: (string, QueryOptions) -> bool, options: QueryOptions, providers: seq<string>)
    returns (result: seq<string>)
    ensures result == Compatible(supports, options, providers)
  {
    if !HasOptions(options) {
      return providers;
    }
    result := [];
    for i := 0 to |providers|
      invariant result == Compatible(supports, options, providers[..i])
    {
      assert providers[..i + 1][..i] == providers[..i];
      if supports(providers[i], options) {
        result := result + [providers[i]];
      }
    }
    assert providers[..|providers|] == providers;
  }

  method EqualProviders(left: seq<string>, right: seq<string>) returns (equal: bool)
    ensures equal <==> left == right
  {
    if |left| != |right| {
      return false;
    }
    for i := 0 to |left|
      invariant left[..i] == right[..i]
    {
      if left[i] != right[i] {
        return false;
      }
    }
    return true;
  }

  method Prepare(options: Options, payload: Payload) returns (r: Result<Request, Refusal>)
    ensures r == Prepared(options, payload)
  {
    var query, limit := Squeeze(payload.query), payload.limit;
    if query == "" || |query| > 256 {
      return Err(InvalidQuery);
    }
    if limit == 0 {
      limit := 10;
    }
    if limit < 1 || limit > 20 {
      return Err(InvalidLimit);
    }
    if payload.cursor.Some? && payload.cursor.value.size > 4096 {
      return Err(CursorTooLong);
    }
    if !payload.timeoutParses {
      return Err(InvalidTimeout);
    }
    var validated := ValidateProviders(payload.providers, options.enabled);
    if validated.Err? {
      return Err(validated.error);
    }
    if |payload.providers| > 0 && !options.allowRequestProviders {
      return Err(ProviderSelectionForbidden);
    }
    var region := Region(payload.region);
    if region.None? {
      return Err(InvalidRegion);
    }
    var raw := Request(query, validated.value, "", limit, 1, region.value, payload.filters, payload.options, "");
    var normalized := Normalize(raw);
    if normalized.Err? {
      return Err(InvalidOptions(normalized.error));
    }
    var request := normalized.value;
    var providers := CompatibleProviders(options.supports, request.options, request.providers);
    if |providers| == 0 {
      return Err(UnsupportedOptions);
    }
    return Ok(request.(providers := providers));
  }

  method Bind(options: Options, payload: Payload, first: Request, now: int) returns (r: Result<Request, Refusal>)
    ensures r == Bound(options, payload, first, now)
  {
    var request := first;
    if payload.cursor.None? {
      return Ok(request);
    }
    var decoded := Cursor.Decode(options.codec, payload.cursor.value, now);
    if decoded.Err? {
      return Err(if decoded.error == Cursor.ExpiredCursor then CursorExpired else InvalidCursor);
    }
    var state := decoded.value;
    if |payload.providers| == 0 {
      request := request.(providers := state.providers);
    }
    var fingerprintMatches := state.fingerprint == Some(Fingerprint(request));
    if state.version == 1 {
      fingerprintMatches := state.queryHash == TrimSpace(request.query) && !HasFilters(request);
    }
    var sameProviders := EqualProviders(request.providers, state.providers);
    if !fingerprintMatches || state.limit != request.limit || !sameProviders {
      return Err(CursorMismatch);
    }
    return Ok(request.(provider := state.provider, page := state.page, pageToken := state.pageToken));
  }

  method Handle(options: Options, payload: Payload, x: Exchange) returns (r: Result<Page, Refusal>)
    ensures r == Handled(options, payload, x)
  {
    var prepared := Prepare(options, payload);
    var first :- prepared;
    var bound := Bind(options, payload, first, x.openedAt);
    var request :- bound;
    if request.provider != "" && request.provider !in EnabledSet(options.enabled) {
      return Err(Refusal.ProviderUnavailable);
    }
    var response := x.search(request);
    if response.None? {
      return Err(if payload.cursor.Some? then PaginationSourceUnavailable else SearchFailed);
    }
    var answer := response.value;
    var hasMore := answer.results == request.limit && request.page < 10;
    if answer.paginationKnown {
      hasMore := answer.nextPageToken != "" && request.page < 10;
    }
    var next := None;
    if hasMore {
      if !x.seals {
        return Err(CursorEncodingFailed);
      }
      var pinned := request.(provider := answer.provider);
      var state := Cursor.State(0, "", Some(Fingerprint(pinned)), answer.provider, request.providers,
                                request.page + 1, answer.nextPageToken, request.limit, None);
      FingerprintIgnoresPin(request, answer.provider);
      next := Some(Cursor.Encode(options.codec, state, x.sealedAt, x.tokenSize));
    }
    return Ok(Page(request, answer, next));
  }

  /** The provider is pinned by the cursor, so the fingerprint leaves it out. */
  lemma FingerprintIgnoresPin(request: Request, provider: string)
    ensures Fingerprint(request.(provider := provider)) == Fingerprint(request)
  {
  }

  // ------------------------------------------------------------------
  // What the handler's parts mean
  // ------------------------------------------------------------------

  predicate Enabled(enabled: seq<string>, name: string) {
    exists k :: 0 <= k < |enabled| && TrimSpace(enabled[k]) == name
  }

  lemma EnabledMeans(enabled: seq<string>, name: string)
    ensures name in EnabledSet(enabled) <==> Enabled(enabled, name)
  {
    if name in EnabledSet(enabled) {
      var raw :| raw in enabled && TrimSpace(raw) == name;
      var k :| 0 <= k < |enabled| && enabled[k] == raw;
      assert TrimSpace(enabled[k]) == name;
    }
  }

  /** The name at position `k` is enabled and does not repeat an earlier one. */
  predicate FreshName(requested: seq<string>, enabled: set<string>, k: nat)
    requires k < |requested|
  {
    && Lower(TrimSpace(requested[k])) in enabled
    && forall j :: 0 <= j < k ==> Lower(TrimSpace(requested[j])) != Lower(TrimSpace(requested[k]))
  }

  /** The error for the first name that is not fresh. */
  ghost predicate RefusesAt(requested: seq<string>, enabled: set<string>, error: Refusal, k: nat)
    requires k < |requested|
  {
    && !FreshName(requested, enabled, k) && (forall j :: 0 <= j < k ==> FreshName(requested, enabled, j))
    && var name := Lower(TrimSpace(requested[k]));
       error == if name in enabled then ProviderDuplicated(name) else ProviderNotEnabled(name)
  }

  lemma FreshNameInPrefix(requested: seq<string>, enabled: set<string>, n: nat, k: nat)
    requires k < n <= |requested|
    ensures FreshName(requested[..n], enabled, k) <==> FreshName(requested, enabled, k)
  {
    assert forall j :: 0 <= j <= k ==> requested[..n][j] == requested[j];
  }

  /**
   * Requested providers are accepted exactly if all are enabled and none is
   * repeated; then their names come in the caller's order. Otherwise the
   * first name that is not enabled or repeats an earlier one is reported.
   */
  lemma {:induction false} ValidatedMeans(requested: seq<string>, enabled: set<string>)
    ensures var r := Validated(requested, enabled);
            if r.Ok? then
              && (forall k :: 0 <= k < |requested| ==> FreshName(requested, enabled, k))
              && |r.value| == |requested| && forall k :: 0 <= k < |requested| ==> r.value[k] == Lower(TrimSpace(requested[k]))
            else exists k :: 0 <= k < |requested| && RefusesAt(requested, enabled, r.error, k)
  {
    hide FreshName;
    if requested != [] {
      var n := |requested| - 1;
      var before := requested[..n];
      var r := Validated(before, enabled);
      ValidatedMeans(before, enabled);
      forall k | 0 <= k < n ensures FreshName(before, enabled, k) <==> FreshName(requested, enabled, k) {
        FreshNameInPrefix(requested, enabled, n, k);
      }
      if r.Ok? {
        LastIsFresh(requested, enabled, r.value);
      } else {
        var k :| 0 <= k < n && RefusesAt(before, enabled, r.error, k);
        assert RefusesAt(requested, enabled, r.error, k);
      }
      if r.Ok? && Validated(requested, enabled).Err? {
        assert RefusesAt(requested, enabled, Validated(requested, enabled).error, n);
      }
    }
  }

  lemma LastIsFresh(requested: seq<string>, enabled: set<string>, names: seq<string>)
    requires |requested| == |names| + 1 && forall k :: 0 <= k < |names| ==> names[k] == Lower(TrimSpace(requested[k]))
    ensures var name := Lower(TrimSpace(requested[|names|]));
            FreshName(requested, enabled, |names|) <==> name in enabled && name !in names
  {
  }

  lemma Associates(a: seq<string>, b: seq<string>, c: seq<string>)
    ensures (a + b) + c == a + (b + c)
  {
  }

  /** Each provider is kept or dropped by itself, in the caller's order. */
  lemma {:induction false} CompatibleDistributes(supports: (string, QueryOptions) -> bool, options: QueryOptions, xs: seq<string>, ys: seq<string>)
    ensures Compatible(supports, options, xs + ys) == Compatible(supports, options, xs) + Compatible(supports, options, ys)
    decreases |ys|
  {
    hide HasOptions;
    if ys == [] {
      assert xs + ys == xs;
    } else if HasOptions(options) {
      var n := |ys| - 1;
      var before := ys[..n];
      CompatibleDistributes(supports, options, xs, before);
      assert (xs + ys)[..|xs| + n] == xs + before && (xs + ys)[|xs| + n] == ys[n];
      Associates(Compatible(supports, options, xs), Compatible(supports, options, before),
                 if supports(ys[n], options) then [ys[n]] else []);
    }
  }

  /** It is kept if no query option is given at all, or if it supports those given. */
  lemma CompatibleMeans(supports: (string, QueryOptions) -> bool, options: QueryOptions, provider: string)
    ensures Compatible(supports, options, [provider]) ==
            if (options.exactPhrases == [] && options.anyTerms == [] && options.excludeTerms == []
                && options.titleTerms == [] && options.fileTypes == []) || supports(provider, options) then [provider] else []
    ensures Compatible(supports, options, []) == []
  {
    assert [provider][..0] == [];
  }

  /** No region, or two letters in any case. */
  lemma RegionMeans(raw: string)
    ensures var region := Lower(TrimSpace(raw));
            Region(raw) == if |region| == 0 || (|region| == 2 && forall i :: 0 <= i < 2 ==> 'a' <= region[i] <= 'z')
                           then Some(region) else None
  {
  }

  /** The checks of a first request in their order, with their limits; what passes them all is prepared. */
  lemma PreparedInOrder(options: Options, payload: Payload)
    ensures var query := Join(Fields(payload.query));
            var limit := if payload.limit == 0 then 10 else payload.limit;
            var providers := Providers(payload.providers, options.enabled);
            var region := Region(payload.region);
            Prepared(options, payload) ==
            if |query| < 1 || |query| > 256 then Err(InvalidQuery)
            else if limit < 1 || limit > 20 then Err(InvalidLimit)
            else if payload.cursor.Some? && payload.cursor.value.size > 4096 then Err(CursorTooLong)
            else if !payload.timeoutParses then Err(InvalidTimeout)
            else if providers.Err? then Err(providers.error)
            else if payload.providers != [] && !options.allowRequestProviders then Err(ProviderSelectionForbidden)
            else if region.None? then Err(InvalidRegion)
            else
              var normalized := Normalized(Request(query, providers.value, "", limit, 1, region.value, payload.filters, payload.options, ""));
              if normalized.Err? then Err(InvalidOptions(normalized.error))
              else
                var chain := Compatible(options.supports, normalized.value.options, normalized.value.providers);
                if chain == [] then Err(UnsupportedOptions) else Ok(normalized.value.(providers := chain))
    ensures Providers(payload.providers, options.enabled) ==
            if payload.providers == [] then Ok(options.enabled) else Validated(payload.providers, EnabledSet(options.enabled))
  {
    hide Normalized, Compatible, Validated;
  }

  /** A cursor of version 1 knows the query only, so it belongs to plain requests with its query, limit and providers. */
  lemma PlainCursorAcceptedExactlyWhen(options: Options, payload: Payload, first: Request, now: int)
    requires payload.cursor.Some? && Cursor.Decode(options.codec, payload.cursor.value, now).Ok? && payload.cursor.value.state.version == 1
    ensures var state := payload.cursor.value.state;
            var providers := if payload.providers == [] then state.providers else first.providers;
            var accepted :=
              && state.queryHash == TrimSpace(first.query) && state.limit == first.limit && state.providers == providers
              && first.region == "" && first.filters.included == [] && first.filters.excluded == []
              && first.options.exactPhrases == [] && first.options.anyTerms == [] && first.options.excludeTerms == []
              && first.options.titleTerms == [] && first.options.fileTypes == [];
            Bound(options, payload, first, now) ==
            if accepted then Ok(first.(providers := providers, provider := state.provider, page := state.page, pageToken := state.pageToken))
            else Err(CursorMismatch)
  {
    hide Fingerprint;
  }

  /**
   * A page that is served carries a next cursor exactly if it is not the
   * tenth and there is more: a continuation token where the provider knows
   * its pagination, a full page where it does not.
   */
  lemma NextExactlyWhen(options: Options, payload: Payload, x: Exchange)
    requires Handled(options, payload, x).Ok?
    ensures var page := Handled(options, payload, x).value;
            && x.search(page.asked) == Some(page.answer)
            && (page.next.Some? <==>
                  && page.asked.page < 10
                  && ((page.answer.paginationKnown && page.answer.nextPageToken != "")
                      || (!page.answer.paginationKnown && page.answer.results == page.asked.limit)))
            && (page.next.Some? ==> x.seals)
  {
    hide Prepared, Bound, Fingerprint;
  }

  /** A request that passes its checks fails if its pinned provider is not enabled, if the source fails, or if the next cursor cannot be sealed. */
  lemma ServiceFailuresMean(options: Options, payload: Payload, x: Exchange, request: Request)
    requires Prepared(options, payload).Ok? && Bound(options, payload, Prepared(options, payload).value, x.openedAt) == Ok(request)
    ensures var unavailable := request.provider != "" && !Enabled(options.enabled, request.provider);
            && (unavailable ==> Handled(options, payload, x) == Err(Refusal.ProviderUnavailable))
            && (!unavailable && x.search(request).None? ==>
                  Handled(options, payload, x) == Err(if payload.cursor.Some? then PaginationSourceUnavailable else SearchFailed))
            && (!unavailable && x.search(request).Some? ==>
                  if Handled(options, payload, x).Ok? then Handled(options, payload, x).value.asked == request
                  else Handled(options, payload, x) == Err(CursorEncodingFailed) && !x.seals)
  {
    hide Prepared, Bound, Fingerprint, EnabledSet;
    EnabledMeans(options.enabled, request.provider);
  }

  // ------------------------------------------------------------------
  // A cursor belongs to its search
  // ------------------------------------------------------------------

  /** What the first page asks for, in terms of the payload. */
  lemma PreparedMeans(options: Options, payload: Payload, first: Request)
    requires Prepared(options, payload) == Ok(first)
    ensures first.query == Squeeze(payload.query) && first.limit == LimitOf(payload)
    ensures Region(payload.region) == Some(first.region)
    ensures NormalizedFilters(payload.filters) == Ok(first.filters)
    ensures NormalizedOptions(payload.options) == Ok(first.options)
    ensures first.provider == "" && first.page == 1 && first.pageToken == "" && first.providers != [] && first.limit >= 1
  {
  }

  lemma PreparedIsNormalized(options: Options, payload: Payload, first: Request)
    requires Prepared(options, payload) == Ok(first)
    ensures Fingerprint(first) == DigestOf(first)
    ensures forall providers :: Fingerprint(first.(providers := providers)) == DigestOf(first.(providers := providers))
  {
    PreparedMeans(options, payload, first);
    NormalizeFiltersTwice(payload.filters);
    NormalizeOptionsTwice(payload.options);
  }

  /** A request for some page of this search. */
  function At(first: Request, provider: string, page: int, token: string): Request {
    first.(provider := provider, page := page, pageToken := token)
  }

  function NextCursor(options: Options, request: Request, answer: Answer, x: Exchange): Cursor.Token {
    Cursor.Encode(options.codec, NextState(request, answer), x.sealedAt, x.tokenSize)
  }

  /**
   * A cursor from one payload's search is accepted with another payload
   * exactly when both ask for the same search, the limits and regions agree,
   * and the second payload leaves the providers out or names the same chain.
   */
  lemma CursorAcceptedExactlyWhen(
    options: Options, a: Payload, firstA: Request, request: Request, answer: Answer, x: Exchange,
    b: Payload, firstB: Request, now: int)
    requires Prepared(options, a) == Ok(firstA) && Prepared(options, b) == Ok(firstB)
    requires request == At(firstA, request.provider, request.page, request.pageToken) && request.page >= 0
    requires b.cursor == Some(NextCursor(options, request, answer, x)) && now < x.sealedAt + options.codec.ttl
    ensures Bound(options, b, firstB, now).Ok? <==>
              && Squeeze(a.query) == Squeeze(b.query) && LimitOf(a) == LimitOf(b) && Region(a.region) == Region(b.region)
              && SameFilters(a.filters, b.filters) && SameOptions(a.options, b.options)
              && (b.providers == [] || firstA.providers == firstB.providers)
    ensures Bound(options, b, firstB, now).Err? ==> Bound(options, b, firstB, now) == Err(CursorMismatch)
  {
    PreparedMeans(options, a, firstA);
    PreparedMeans(options, b, firstB);
    PreparedIsNormalized(options, a, firstA);
    PreparedIsNormalized(options, b, firstB);
    SameFiltersExactlyWhen(a.filters, b.filters);
    SameOptionsExactlyWhen(a.options, b.options);
    FingerprintIgnoresPage(firstA, request.provider, request.page, request.pageToken);
    assert Cursor.Usable(NextState(request, answer));
  }

  /** Every page of a search has the fingerprint of the first. */
  lemma FingerprintIgnoresPage(first: Request, provider: string, page: int, token: string)
    ensures Fingerprint(At(first, provider, page, token)) == Fingerprint(first)
  {
  }

  /** Resending the same payload with its next cursor asks for the next page of the same search from the pinned provider. */
  lemma CursorContinues(options: Options, payload: Payload, first: Request, request: Request, answer: Answer, x: Exchange, now: int)
    requires first.providers != [] && first.limit >= 1 && request.page >= 0
    requires request == At(first, request.provider, request.page, request.pageToken)
    requires payload.cursor == Some(NextCursor(options, request, answer, x))
    ensures Bound(options, payload, first, now) ==
            if now < x.sealedAt + options.codec.ttl then Ok(At(first, answer.provider, request.page + 1, answer.nextPageToken))
            else Err(CursorExpired)
  {
    hide Fingerprint;
    var state := NextState(request, answer);
    FingerprintIgnoresPage(first, request.provider, request.page, request.pageToken);
    assert first.(providers := first.providers) == first;
    assert Cursor.Usable(state);
  }

  // ------------------------------------------------------------------
  // Following the cursors
  // ------------------------------------------------------------------

  type Handler = (Payload, Exchange) -> Result<Page, Refusal>

  /** The same payload sent again and again, each time with the cursor of the page before. */
  function Follow(handle: Handler, payload: Payload, xs: seq<Exchange>): seq<Result<Page, Refusal>>
    decreases |xs|
  {
    if xs == [] then []
    else
      var r := handle(payload, xs[0]);
      [r] + if r.Ok? && r.value.next.Some? then Follow(handle, payload.(cursor := r.value.next), xs[1..]) else []
  }

  /** The search service answers for an enabled provider, and for the pinned one if there is one. */
  ghost predicate Honest(options: Options, search: Request -> Option<Answer>) {
    forall r :: search(r).Some? ==>
      && search(r).value.provider != "" && search(r).value.provider in EnabledSet(options.enabled)
      && (r.provider != "" ==> search(r).value.provider == r.provider)
  }

  ghost predicate Sound(options: Options, x: Exchange) {
    Honest(options, x.search) && x.tokenSize <= 4096
  }

  /** The page that is due: its number, the pinned provider if any, the continuation token, and when its cursor expires. */
  datatype Due = Due(page: int, pin: string, token: string, deadline: Option<int>) {
    predicate Late(now: int) {
      deadline.Some? && now >= deadline.value
    }

    function Of(first: Request): Request {
      At(first, pin, page, token)
    }

    function Next(options: Options, answer: Answer, x: Exchange): Due {
      Due(page + 1, answer.provider, answer.nextPageToken, Some(x.sealedAt + options.codec.ttl))
    }
  }

  /**
   * The right reply when a page is due: the page, from the pinned provider and
   * with a next cursor exactly when there is more, unless the cursor has
   * expired, the source fails, or the next cursor cannot be sealed.
   */
  ghost predicate Replies(options: Options, first: Request, due: Due, x: Exchange, r: Result<Page, Refusal>) {
    if due.Late(x.openedAt) then r == Err(CursorExpired)
    else if x.search(due.Of(first)).None? then r == Err(SearchFailed) || r == Err(PaginationSourceUnavailable)
    else
      var asked, answer := due.Of(first), x.search(due.Of(first)).value;
      var more := asked.page < 10 && ((answer.paginationKnown && answer.nextPageToken != "")
                                      || (!answer.paginationKnown && answer.results == asked.limit));
      if more && !x.seals then r == Err(CursorEncodingFailed)
      else r.Ok? && r.value.asked == asked && r.value.answer == answer && (r.value.next.Some? <==> more)
  }

  /** The visits are consecutive pages of one search, each the right reply to what the page before left due. */
  ghost predicate InOrder(options: Options, first: Request, visits: seq<Result<Page, Refusal>>, xs: seq<Exchange>, due: Due)
    decreases |visits|
  {
    visits != [] ==>
      && xs != [] && Replies(options, first, due, xs[0], visits[0])
      && (visits[0].Err? || visits[0].value.next.None? ==> |visits| == 1)
      && (visits[0].Ok? ==> InOrder(options, first, visits[1..], xs[1..], due.Next(options, visits[0].value.answer, xs[0])))
  }

  /** The payload asks for the page that is due: the first has no cursor, the others carry the one sealed a page before. */
  ghost predicate Asks(options: Options, payload: Payload, now: int, first: Request, due: Due) {
    && Prepared(options, payload) == Ok(first)
    && (due.pin == "" || due.pin in EnabledSet(options.enabled))
    && Bound(options, payload, first, now) == if due.Late(now) then Err(CursorExpired) else Ok(due.Of(first))
  }

  lemma FirstAsks(options: Options, payload: Payload, first: Request, now: int)
    requires payload.cursor.None? && Prepared(options, payload) == Ok(first)
    ensures Asks(options, payload, now, first, Due(1, "", "", None))
  {
    PreparedMeans(options, payload, first);
  }

  lemma CursorKeepsPreparation(options: Options, payload: Payload, cursor: Cursor.Token)
    requires Prepared(options, payload).Ok? && cursor.size <= 4096
    ensures Prepared(options, payload.(cursor := Some(cursor))) == Prepared(options, payload)
  {
  }

  /** A served page leads to the payload that asks for the next one. */
  lemma NextAsks(options: Options, payload: Payload, x: Exchange, first: Request, request: Request, answer: Answer, now: int)
    requires Prepared(options, payload) == Ok(first) && x.tokenSize <= 4096 && request.page >= 0
    requires request == At(first, request.provider, request.page, request.pageToken)
    requires answer.provider in EnabledSet(options.enabled)
    ensures Asks(options, payload.(cursor := Some(NextCursor(options, request, answer, x))), now, first,
                 Due(request.page + 1, answer.provider, answer.nextPageToken, Some(x.sealedAt + options.codec.ttl)))
  {
    var cursor := NextCursor(options, request, answer, x);
    PreparedMeans(options, payload, first);
    CursorKeepsPreparation(options, payload, cursor);
    CursorContinues(options, payload.(cursor := Some(cursor)), first, request, answer, x, now);
  }

  /** What the handler replies to a payload that asks for the page that is due. */
  lemma ReplyToAsk(options: Options, payload: Payload, x: Exchange, first: Request, due: Due)
    requires Asks(options, payload, x.openedAt, first, due)
    ensures Replies(options, first, due, x, Handled(options, payload, x))
    ensures Handled(options, payload, x).Ok? ==>
              Handled(options, payload, x).value == Served(options, due.Of(first), x.search(due.Of(first)).value, x)
  {
  }

  /** A page with a next cursor leads to the payload that asks for the next page. */
  lemma AsksAgain(options: Options, payload: Payload, x: Exchange, first: Request, due: Due, v: Page, later: int)
    requires Sound(options, x) && due.page >= 1 && Prepared(options, payload) == Ok(first)
    requires x.search(due.Of(first)) == Some(v.answer) && v == Served(options, due.Of(first), v.answer, x) && v.next.Some?
    ensures Asks(options, payload.(cursor := v.next), later, first, due.Next(options, v.answer, x))
  {
    hide Fingerprint, Prepared;
    var request := v.asked;
    assert request == At(first, request.provider, request.page, request.pageToken);
    NextAsks(options, payload, x, first, request, v.answer, later);
  }

  type Question = (Payload, int, Due) -> bool

  ghost predicate RepliesRight(handle: Handler, asks: Question, options: Options, first: Request) {
    forall p: Payload, d: Due, x: Exchange :: asks(p, x.openedAt, d) ==> Replies(options, first, d, x, handle(p, x))
  }

  ghost predicate AsksOn(handle: Handler, asks: Question, options: Options) {
    forall p: Payload, d: Due, x: Exchange, later: int ::
      Sound(options, x) && d.page >= 1 && asks(p, x.openedAt, d) && handle(p, x).Ok? && handle(p, x).value.next.Some? ==>
      asks(p.(cursor := handle(p, x).value.next), later, d.Next(options, handle(p, x).value.answer, x))
  }

  /** If every right question gets a right reply and leads to a right question, the visits are in order. */
  lemma {:induction false} FollowFrom(
    handle: Handler, asks: Question, options: Options, payload: Payload, xs: seq<Exchange>, first: Request, due: Due)
    requires RepliesRight(handle, asks, options, first) && AsksOn(handle, asks, options)
    requires (forall x :: x in xs ==> Sound(options, x)) && due.page >= 1
    requires xs != [] ==> asks(payload, xs[0].openedAt, due)
    ensures InOrder(options, first, Follow(handle, payload, xs), xs, due)
    decreases |xs|
  {
    if xs != [] {
      var x, r := xs[0], handle(payload, xs[0]);
      assert x in xs;
      if r.Ok? && r.value.next.Some? {
        var next, after := payload.(cursor := r.value.next), due.Next(options, r.value.answer, x);
        assert |xs| > 1 ==> asks(next, xs[1].openedAt, after);
        FollowFrom(handle, asks, options, next, xs[1..], first, after);
      }
    }
  }

  lemma {:induction false} InOrderMeans(
    options: Options, first: Request, visits: seq<Result<Page, Refusal>>, xs: seq<Exchange>, due: Due, k: nat)
    requires (forall x :: x in xs ==> Sound(options, x))
    requires InOrder(options, first, visits, xs, due) && due.page <= 10 && k < |visits|
    ensures due.page + k <= 10
    ensures visits[k].Ok? ==> visits[k].value.asked.page == due.page + k
    ensures visits[k].Ok? && due.pin != "" ==> visits[k].value.answer.provider == due.pin
    ensures visits[k].Ok? ==> visits[0].Ok? && visits[k].value.answer.provider == visits[0].value.answer.provider
    ensures visits[k].Err? ==> visits[k].error in {CursorExpired, PaginationSourceUnavailable, SearchFailed, CursorEncodingFailed}
    ensures visits[k].Ok? && visits[k].value.next.None? && due.page + k < 10 ==>
              var answer := visits[k].value.answer;
              if answer.paginationKnown then answer.nextPageToken == "" else answer.results != first.limit
    decreases k
  {
    assert xs[0] in xs;
    if k > 0 {
      assert visits[0].Ok?;
      InOrderMeans(options, first, visits[1..], xs[1..], due.Next(options, visits[0].value.answer, xs[0]), k - 1);
    }
  }

  /**
   * Following the cursors of any valid first request never ends in a cursor
   * mismatch: it visits pages 1, 2, 3, ... of one search in order, keeps the
   * provider that answered page one, and ends by page 10. It stops early only
   * for an expired cursor, a failed source, a cursor that cannot be sealed, or
   * a page that has no next one.
   */
  lemma FollowingVisitsPagesInOrder(options: Options, payload: Payload, xs: seq<Exchange>)
    requires payload.cursor.None? && Prepared(options, payload).Ok? && forall x :: x in xs ==> Sound(options, x)
    ensures var first, visits := Prepared(options, payload).value, Follow((p, x) => Handled(options, p, x), payload, xs);
            && InOrder(options, first, visits, xs, Due(1, "", "", None))
            && |visits| <= 10
            && (forall k :: 0 <= k < |visits| && visits[k].Ok? ==>
                  && visits[0].Ok? && visits[k].value.asked.page == k + 1
                  && visits[k].value.answer.provider == visits[0].value.answer.provider)
            && (forall k :: 0 <= k < |visits| && visits[k].Err? ==>
                  visits[k].error in {CursorExpired, PaginationSourceUnavailable, SearchFailed, CursorEncodingFailed})
  {
    var first, start := Prepared(options, payload).value, Due(1, "", "", None);
    var handle: Handler := (p, x) => Handled(options, p, x);
    FollowsInOrder(options, payload, xs, first, handle);
    var visits := Follow(handle, payload, xs);
    forall k | 0 <= k < |visits|
      ensures k < 10
      ensures visits[k].Ok? ==> visits[0].Ok? && visits[k].value.asked.page == k + 1
      ensures visits[k].Ok? ==> visits[k].value.answer.provider == visits[0].value.answer.provider
      ensures visits[k].Err? ==> visits[k].error in {CursorExpired, PaginationSourceUnavailable, SearchFailed, CursorEncodingFailed}
    {
      InOrderMeans(options, first, visits, xs, start, k);
    }
    if visits != [] {
      InOrderMeans(options, first, visits, xs, start, |visits| - 1);
    }
  }

  /** Following stops only at an error or at a page without a next cursor. */
  lemma {:induction false} FollowStops(handle: Handler, payload: Payload, xs: seq<Exchange>)
    ensures var visits := Follow(handle, payload, xs);
            && |visits| <= |xs|
            && (|visits| < |xs| ==>
                  visits != [] && (visits[|visits| - 1].Err? || visits[|visits| - 1].value.next.None?))
    decreases |xs|
  {
    if xs != [] {
      var r := handle(payload, xs[0]);
      if r.Ok? && r.value.next.Some? {
        FollowStops(handle, payload.(cursor := r.value.next), xs[1..]);
      }
    }
  }

  /**
   * When it stops before page 10 at a page and not at an error, that page was
   * the last: its provider knows the pagination and has no further token, or
   * does not know it and the page is not full.
   */
  lemma FollowingEndsAtLastPage(options: Options, payload: Payload, xs: seq<Exchange>)
    requires payload.cursor.None? && Prepared(options, payload).Ok? && forall x :: x in xs ==> Sound(options, x)
    ensures var first, visits := Prepared(options, payload).value, Follow((p, x) => Handled(options, p, x), payload, xs);
            0 < |visits| < |xs| && |visits| < 10 && visits[|visits| - 1].Ok? ==>
              var answer := visits[|visits| - 1].value.answer;
              if answer.paginationKnown then answer.nextPageToken == "" else answer.results != first.limit
  {
    var first, start := Prepared(options, payload).value, Due(1, "", "", None);
    var handle: Handler := (p, x) => Handled(options, p, x);
    var visits := Follow(handle, payload, xs);
    FollowsInOrder(options, payload, xs, first, handle);
    FollowStops(handle, payload, xs);
    if visits != [] {
      InOrderMeans(options, first, visits, xs, start, |visits| - 1);
    }
  }

  lemma FollowsInOrder(options: Options, payload: Payload, xs: seq<Exchange>, first: Request, handle: Handler)
    requires payload.cursor.None? && Prepared(options, payload) == Ok(first) && forall x :: x in xs ==> Sound(options, x)
    requires handle == ((p, x) => Handled(options, p, x))
    ensures InOrder(options, first, Follow(handle, payload, xs), xs, Due(1, "", "", None))
  {
    var asks: Question := (p, now, d) => Asks(options, p, now, first, d);
    forall p: Payload, d: Due, x: Exchange | asks(p, x.openedAt, d) ensures Replies(options, first, d, x, handle(p, x)) {
      ReplyToAsk(options, p, x, first, d);
    }
    forall p: Payload, d: Due, x: Exchange, later: int |
      Sound(options, x) && d.page >= 1 && asks(p, x.openedAt, d) && handle(p, x).Ok? && handle(p, x).value.next.Some?
      ensures asks(p.(cursor := handle(p, x).value.next), later, d.Next(options, handle(p, x).value.answer, x))
    {
      ReplyToAsk(options, p, x, first, d);
      AsksAgain(options, p, x, first, d, handle(p, x).value, later);
    }
    if xs != [] {
      FirstAsks(options, payload, first, xs[0].openedAt);
    }
    FollowFrom(handle, asks, options, payload, xs, first, Due(1, "", "", None));
  }
}
