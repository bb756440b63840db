/** Result finalisation: domain filters, deduplication by canonical URL, the limit, and ranks. */
module Finalize {
  import opened Domain
  import opened SearchPlan

  datatype Hit = Hit(
    url: string,
    canonicalURL: string,
    host: string,
    title: string,
    snippet: string,
    rank: int,
    provider: string)

  datatype Canonical = Canonical(url: string, host: string)

  /** Canonicalisation of URLs; it gives nothing for a URL that is not a valid result. */
  type Canonicalizer = string -> Option<Canonical>

  // ------------------------------------------------------------------
  // Domain filters
  // ------------------------------------------------------------------

  predicate HostMatches(host: string, filter: string) {
    host == filter || (|host| > |filter| && host[|host| - |filter| - 1..] == "." + filter)
  }

  predicate MatchesAny(host: string, filters: seq<string>) {
    exists f :: f in filters && HostMatches(host, f)
  }

  predicate Allowed(host: string, filters: Filters) {
    !MatchesAny(host, filters.excluded) && (filters.included == [] || MatchesAny(host, filters.included))
  }

  /** The host is in the domain: it is the domain, or something, a dot, and the domain. */
  ghost predicate InDomain(host: string, name: string) {
    host == name || exists prefix :: host == prefix + "." + name
  }

  /** An excluded domain wins over an included one, and without included domains every other host is allowed. */
  method DomainAllowed(host: string, filters: Filters) returns (ok: bool)
    ensures ok <==> Allowed(host, filters)
    ensures ok <==>
              && (forall f :: f in filters.excluded ==> !InDomain(host, f))
              && (filters.included == [] || exists f :: f in filters.included && InDomain(host, f))
  {
    forall f ensures HostMatches(host, f) <==> InDomain(host, f) {
      MatchesExactlyWhen(host, f);
    }
    hide HostMatches, InDomain;
    for i := 0 to |filters.excluded|
      invariant forall k :: 0 <= k < i ==> !HostMatches(host, filters.excluded[k])
    {
      if HostMatches(host, filters.excluded[i]) {
        return false;
      }
    }
    if |filters.included| == 0 {
      return true;
    }
    for i := 0 to |filters.included|
      invariant forall k :: 0 <= k < i ==> !HostMatches(host, filters.included[k])
    {
      if HostMatches(host, filters.included[i]) {
        return true;
      }
    }
    return false;
  }

  /** A filter matches its own domain and every host below it, and no other host that merely ends in it. */
  lemma MatchesExactlyWhen(host: string, filter: string)
    ensures HostMatches(host, filter) <==> InDomain(host, filter)
    ensures forall prefix :: host == prefix + filter && prefix != "" ==> (HostMatches(host, filter) <==> prefix[|prefix| - 1] == '.')
  {
    if HostMatches(host, filter) && host != filter {
      var dot := |host| - |filter| - 1;
      assert host == host[..dot] + "." + filter;
    }
    if prefix :| host == prefix + "." + filter {
      assert host[|prefix|..] == "." + filter;
    }
    forall prefix | host == prefix + filter && prefix != ""
      ensures HostMatches(host, filter) <==> prefix[|prefix| - 1] == '.'
    {
      assert host[|prefix| - 1..] == [prefix[|prefix| - 1]] + filter;
      assert ([prefix[|prefix| - 1]] + filter)[0] == prefix[|prefix| - 1];
    }
  }

  /** A filter admits its own domain and everything below it: matching is transitive. */
  lemma SubdomainMatches(host: string, filter: string, parent: string)
    requires HostMatches(host, filter) && HostMatches(filter, parent)
    ensures HostMatches(host, parent)
  {
    if host != filter && filter != parent {
      var dot := |host| - |parent| - 1;
      var inner := |filter| - |parent| - 1;
      assert host[|host| - |filter|..] == filter by {
        assert host[|host| - |filter| - 1..][1..] == filter;
      }
      assert host[dot..] == host[|host| - |filter|..][inner..];
    }
  }

  // ------------------------------------------------------------------
  // The meaning of finalisation
  // ------------------------------------------------------------------

  predicate Admitted(canon: Canonicalizer, filters: Filters, h: Hit) {
    canon(h.url).Some? && Allowed(canon(h.url).value.host, filters)
  }

  function Dressed(canon: Canonicalizer, h: Hit): Hit
    requires canon(h.url).Some?
  {
    h.(canonicalURL := canon(h.url).value.url, host := canon(h.url).value.host)
  }

  function URLs(hits: seq<Hit>): set<string> {
    set h | h in hits :: h.canonicalURL
  }

  /** The admitted hits, the first of each canonical URL. */
  function Survivors(canon: Canonicalizer, filters: Filters, hits: seq<Hit>): seq<Hit> {
    if hits == [] then []
    else
      var n := |hits| - 1;
      var before := Survivors(canon, filters, hits[..n]);
      if Admitted(canon, filters, hits[n]) && canon(hits[n].url).value.url !in URLs(before)
      then before + [Dressed(canon, hits[n])] else before
  }

  function Ranked(hits: seq<Hit>): seq<Hit> {
    seq(|hits|, i requires 0 <= i < |hits| => hits[i].(rank := i + 1))
  }

  /** The limit is checked only after a result has been taken, so one result passes whatever the limit. */
  function Finalized(canon: Canonicalizer, request: Request, hits: seq<Hit>): seq<Hit> {
    var all := Survivors(canon, request.filters, hits);
    Ranked(all[..Min(|all|, Max(1, request.limit))])
  }

  lemma {:induction false} SurvivorsExtend(canon: Canonicalizer, filters: Filters, hits: seq<Hit>, i: nat)
    requires i <= |hits|
    ensures Survivors(canon, filters, hits[..i]) <= Survivors(canon, filters, hits)
  {
    if i < |hits| {
      var n := |hits| - 1;
      SurvivorsExtend(canon, filters, hits[..n], i);
      assert hits[..n][..i] == hits[..i];
    } else {
      assert hits[..i] == hits;
    }
  }

  lemma RankedPush(hits: seq<Hit>, h: Hit)
    ensures Ranked(hits + [h]) == Ranked(hits) + [h.(rank := |hits| + 1)]
    ensures URLs(hits + [h]) == URLs(hits) + {h.canonicalURL}
  {
  }

  lemma SurvivorsStep(canon: Canonicalizer, filters: Filters, hits: seq<Hit>, i: nat)
    requires i < |hits|
    ensures var before := Survivors(canon, filters, hits[..i]);
            Survivors(canon, filters, hits[..i + 1]) ==
            if Admitted(canon, filters, hits[i]) && canon(hits[i].url).value.url !in URLs(before)
            then before + [Dressed(canon, hits[i])] else before
  {
    assert hits[..i + 1][..i] == hits[..i];
  }

  /** The loop is done when the limit is reached, or at the end of the hits. */
  lemma DoneAt(canon: Canonicalizer, request: Request, hits: seq<Hit>, i: nat)
    requires i <= |hits|
    requires var n, most := |Survivors(canon, request.filters, hits[..i])|, Max(1, request.limit);
             n == most || (i == |hits| && n < most)
    ensures Finalized(canon, request, hits) == Ranked(Survivors(canon, request.filters, hits[..i]))
  {
    var kept := Survivors(canon, request.filters, hits[..i]);
    SurvivorsExtend(canon, request.filters, hits, i);
    assert hits[..|hits|] == hits && kept[..|kept|] == kept;
  }

  method Finalize(canon: Canonicalizer, request: Request, hits: seq<Hit>) returns (finalized: seq<Hit>)
    ensures finalized == Finalized(canon, request, hits)
  {
    var seen: set<string> := {};
    ghost var kept: seq<Hit> := [];
    var i := 0;
    finalized := [];
    while i < |hits|
      invariant i <= |hits| && kept == Survivors(canon, request.filters, hits[..i])
      invariant finalized == Ranked(kept) && seen == URLs(kept) && |kept| < Max(1, request.limit)
    {
      SurvivorsStep(canon, request.filters, hits, i);
      var result := hits[i];
      var parsed := canon(result.url);
      i := i + 1;
      if parsed.None? {
        continue;
      }
      var allowed := DomainAllowed(parsed.value.host, request.filters);
      if !allowed || parsed.value.url in seen {
        continue;
      }
      seen := seen + {parsed.value.url};
      result := result.(canonicalURL := parsed.value.url, host := parsed.value.host);
      RankedPush(kept, result);
      kept := kept + [result];
      finalized := finalized + [result.(rank := |finalized| + 1)];
      if |finalized| >= request.limit {
        break;
      }
    }
    DoneAt(canon, request, hits, i);
  }

  // ------------------------------------------------------------------
  // Its laws
  // ------------------------------------------------------------------

  ghost predicate OnePerURL(hits: seq<Hit>) {
    forall k, l :: 0 <= k < l < |hits| ==> hits[k].canonicalURL != hits[l].canonicalURL
  }

  lemma OnePerURLPush(hits: seq<Hit>, h: Hit)
    requires OnePerURL(hits) && h.canonicalURL !in URLs(hits)
    ensures OnePerURL(hits + [h])
  {
    assert forall k :: 0 <= k < |hits| ==> hits[k].canonicalURL in URLs(hits);
  }

  /** Nothing admitted is lost but for duplicates, and no canonical URL survives twice. */
  lemma {:induction false} SurvivorsAreComplete(canon: Canonicalizer, filters: Filters, hits: seq<Hit>)
    ensures URLs(Survivors(canon, filters, hits)) == AdmittedURLs(canon, filters, hits)
    ensures OnePerURL(Survivors(canon, filters, hits))
  {
    if hits != [] {
      var n := |hits| - 1;
      var h := hits[n];
      var before := Survivors(canon, filters, hits[..n]);
      SurvivorsAreComplete(canon, filters, hits[..n]);
      AdmittedPush(canon, filters, hits[..n], h);
      assert hits == hits[..n] + [h];
      if Admitted(canon, filters, h) && canon(h.url).value.url !in URLs(before) {
        OnePerURLPush(before, Dressed(canon, h));
        RankedPush(before, Dressed(canon, h));
      }
    }
  }

  function AdmittedURLs(canon: Canonicalizer, filters: Filters, hits: seq<Hit>): set<string> {
    set h | h in hits && Admitted(canon, filters, h) :: canon(h.url).value.url
  }

  lemma AdmittedPush(canon: Canonicalizer, filters: Filters, hits: seq<Hit>, h: Hit)
    ensures AdmittedURLs(canon, filters, hits + [h]) ==
            AdmittedURLs(canon, filters, hits) + if Admitted(canon, filters, h) then {canon(h.url).value.url} else {}
  {
  }

  lemma {:induction false} SurvivorsAreDressed(canon: Canonicalizer, filters: Filters, hits: seq<Hit>)
    ensures forall h :: h in Survivors(canon, filters, hits) ==> Admitted(canon, filters, h) && h == Dressed(canon, h)
  {
    if hits != [] {
      SurvivorsAreDressed(canon, filters, hits[..|hits| - 1]);
    }
  }

  /**
   * Every survivor comes from the first admitted hit with its canonical URL,
   * and the survivors before it come from the hits before that one.
   */
  lemma {:induction false} SurvivorIsFirst(canon: Canonicalizer, filters: Filters, hits: seq<Hit>, k: nat) returns (a: nat)
    requires k < |Survivors(canon, filters, hits)|
    ensures a < |hits| && Admitted(canon, filters, hits[a])
    ensures Survivors(canon, filters, hits)[k] == Dressed(canon, hits[a])
    ensures Survivors(canon, filters, hits)[..k] == Survivors(canon, filters, hits[..a])
    ensures canon(hits[a].url).value.url !in AdmittedURLs(canon, filters, hits[..a])
  {
    var n := |hits| - 1;
    var before := Survivors(canon, filters, hits[..n]);
    if k < |before| {
      a := SurvivorIsFirst(canon, filters, hits[..n], k);
      assert hits[..n][..a] == hits[..a];
    } else {
      a := n;
      SurvivorsAreComplete(canon, filters, hits[..n]);
    }
  }

  /**
   * Every result is one of the hits with its canonical URL, its host and its
   * rank filled in and nothing else changed: the first admitted hit of that
   * canonical URL.
   */
  lemma ResultIsHit(canon: Canonicalizer, request: Request, hits: seq<Hit>, k: nat) returns (a: nat)
    requires k < |Finalized(canon, request, hits)|
    ensures a < |hits| && canon(hits[a].url).Some?
    ensures Finalized(canon, request, hits)[k] ==
            hits[a].(canonicalURL := canon(hits[a].url).value.url, host := canon(hits[a].url).value.host, rank := k + 1)
    ensures Allowed(canon(hits[a].url).value.host, request.filters)
    ensures forall b :: 0 <= b < a && canon(hits[b].url).Some? && canon(hits[b].url).value.url == canon(hits[a].url).value.url ==>
                          !Allowed(canon(hits[b].url).value.host, request.filters)
  {
    a := SurvivorIsFirst(canon, request.filters, hits, k);
    forall b | 0 <= b < a && canon(hits[b].url).Some? && canon(hits[b].url).value.url == canon(hits[a].url).value.url
      ensures !Allowed(canon(hits[b].url).value.host, request.filters)
    {
      assert hits[..a][b] == hits[b] && hits[b] in hits[..a];
    }
  }

  lemma {:induction false} SurvivorsSurvive(canon: Canonicalizer, filters: Filters, hits: seq<Hit>)
    requires forall h :: h in hits ==> Admitted(canon, filters, h) && h == Dressed(canon, h)
    requires OnePerURL(hits)
    ensures Survivors(canon, filters, hits) == hits
  {
    if hits != [] {
      var n := |hits| - 1;
      SurvivorsSurvive(canon, filters, hits[..n]);
      assert hits == hits[..n] + [hits[n]];
    }
  }

  /** Finalising finalised results changes nothing. */
  lemma FinalizeTwice(canon: Canonicalizer, request: Request, hits: seq<Hit>)
    ensures Finalized(canon, request, Finalized(canon, request, hits)) == Finalized(canon, request, hits)
  {
    var all := Survivors(canon, request.filters, hits);
    var once := Finalized(canon, request, hits);
    SurvivorsAreDressed(canon, request.filters, hits);
    SurvivorsAreComplete(canon, request.filters, hits);
    forall k | 0 <= k < |once| ensures Admitted(canon, request.filters, once[k]) && once[k] == Dressed(canon, once[k]) {
      assert all[k] in all && once[k] == all[k].(rank := k + 1);
    }
    SurvivorsSurvive(canon, request.filters, once);
    assert once[..|once|] == once;
  }

  /** A larger limit only appends results. */
  lemma LargerLimitExtends(canon: Canonicalizer, request: Request, limit: int, hits: seq<Hit>)
    requires request.limit <= limit
    ensures Finalized(canon, request, hits) <= Finalized(canon, request.(limit := limit), hits)
  {
  }

  /** Ranks are 1..n, and the number of results is the limit or the number of distinct admitted URLs. */
  lemma RanksAndSize(canon: Canonicalizer, request: Request, hits: seq<Hit>)
    ensures var once := Finalized(canon, request, hits);
            && (forall k :: 0 <= k < |once| ==> once[k].rank == k + 1)
            && |once| == Min(Max(1, request.limit), |AdmittedURLs(canon, request.filters, hits)|)
  {
    SurvivorsAreComplete(canon, request.filters, hits);
    URLCount(Survivors(canon, request.filters, hits));
  }

  lemma {:induction false} URLCount(hits: seq<Hit>)
    requires OnePerURL(hits)
    ensures |URLs(hits)| == |hits|
  {
    if hits != [] {
      var n := |hits| - 1;
      URLCount(hits[..n]);
      assert hits == hits[..n] + [hits[n]];
      assert URLs(hits) == URLs(hits[..n]) + {hits[n].canonicalURL};
    }
  }
}
