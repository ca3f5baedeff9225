/** The state service provider of the token core (token/core/state.go): one
    provider per URL, created on a miss by the driver registered for the
    URL's scheme, to which query executors and verifiers are delegated. */
module CoreState {
  import opened Results

  /** A state-service-provider driver: the provider it creates; None is an
      error. */
  datatype SSPDriver<S> = SSPDriver(newProvider: Option<S>)

  datatype SspError =
    | URLInvalid
    | InvalidScheme(scheme: string)
    | ProviderFailed
    | DelegateFailed

  /** A miss on url can be filled: the URL parses, its scheme has a driver,
      and that driver creates a provider. */
  predicate Creatable<S>(url: string, drivers: map<string, SSPDriver<S>>, scheme: string -> Option<string>) {
    scheme(url).Some? && scheme(url).value in drivers && drivers[scheme(url).value].newProvider.Some?
  }

  class StateServiceProvider<S> {
    var ssps: map<string, S>

    constructor()
      ensures ssps == map[]
    {
      ssps := map[];
    }

    /** The provider for url: the cached one, or a new one from the driver of
        the URL's scheme (scheme parses a URL; None when it does not parse),
        stored under the whole URL. drivers is the content of the
        driver registry. */
    method Ssp(url: string, drivers: map<string, SSPDriver<S>>, scheme: string -> Option<string>)
      returns (r: Result<S, SspError>)
      modifies this
      ensures url in old(ssps) ==> r == Ok(old(ssps)[url]) && ssps == old(ssps)
      ensures r.Err? ==> ssps == old(ssps)
      // an unparsable URL, an unknown scheme (named in the error) and a failing driver, in that order
      ensures url !in old(ssps) && scheme(url).None? ==> r == Err(URLInvalid)
      ensures (url !in old(ssps) && scheme(url).Some? && scheme(url).value !in drivers) ==>
        r == Err(InvalidScheme(scheme(url).value))
      ensures (url !in old(ssps) && scheme(url).Some? && scheme(url).value in drivers &&
               drivers[scheme(url).value].newProvider.None?) ==> r == Err(ProviderFailed)
      ensures url !in old(ssps) ==> (r.Ok? <==> Creatable(url, drivers, scheme))
      // the new provider is keyed by the full URL, not by its scheme
      ensures url !in old(ssps) && r.Ok? ==>
        r.value == drivers[scheme(url).value].newProvider.value && ssps == old(ssps)[url := r.value]
    {
      if url in ssps {
        return Ok(ssps[url]);
      }
      var u := scheme(url);
      if u.None? {
        return Err(URLInvalid);
      }
      if u.value !in drivers {
        return Err(InvalidScheme(u.value));
      }
      var ssp := drivers[u.value].newProvider;
      if ssp.None? {
        return Err(ProviderFailed);
      }
      ssps := ssps[url := ssp.value];
      return Ok(ssp.value);
    }

    /** The query executor of the provider for url; queryExecutor is the
        provider's own (None: it failed). */
    method QueryExecutor<QE>(url: string, drivers: map<string, SSPDriver<S>>, scheme: string -> Option<string>,
                             queryExecutor: (S, string) -> Option<QE>)
      returns (r: Result<QE, SspError>)
      modifies this
      ensures r.Ok? ==> url in ssps && queryExecutor(ssps[url], url) == Some(r.value)
      ensures url in old(ssps) ==>
        ssps == old(ssps) &&
        r == (match queryExecutor(old(ssps)[url], url) case None => Err(DelegateFailed) case Some(q) => Ok(q))
      // on a miss a created provider is cached, even when it then fails to delegate,
      // and nothing else changes
      ensures url !in old(ssps) ==>
        ssps == (if Creatable(url, drivers, scheme)
                 then old(ssps)[url := drivers[scheme(url).value].newProvider.value]
                 else old(ssps))
      ensures url !in old(ssps) ==>
        (r.Ok? <==> Creatable(url, drivers, scheme) && queryExecutor(ssps[url], url).Some?)
      // a provider that cannot be had gives its own error
      ensures url !in old(ssps) && scheme(url).None? ==> r == Err(URLInvalid)
      ensures (url !in old(ssps) && scheme(url).Some? && scheme(url).value !in drivers) ==>
        r == Err(InvalidScheme(scheme(url).value))
      ensures (url !in old(ssps) && scheme(url).Some? && scheme(url).value in drivers &&
               drivers[scheme(url).value].newProvider.None?) ==> r == Err(ProviderFailed)
      ensures url !in old(ssps) && Creatable(url, drivers, scheme) && queryExecutor(ssps[url], url).None? ==>
        r == Err(DelegateFailed)
    {
      var ssp := Ssp(url, drivers, scheme);
      if ssp.Err? {
        return Err(ssp.error);
      }
      var qe := queryExecutor(ssp.value, url);
      if qe.None? {
        return Err(DelegateFailed);
      }
      return Ok(qe.value);
    }

    /** The state verifier of the provider for url, delegated in the same way. */
    method Verifier<SV>(url: string, drivers: map<string, SSPDriver<S>>, scheme: string -> Option<string>,
                        verifier: (S, string) -> Option<SV>)
      returns (r: Result<SV, SspError>)
      modifies this
      ensures r.Ok? ==> url in ssps && verifier(ssps[url], url) == Some(r.value)
      ensures url in old(ssps) ==>
        ssps == old(ssps) &&
        r == (match verifier(old(ssps)[url], url) case None => Err(DelegateFailed) case Some(v) => Ok(v))
      // on a miss a created provider is cached, even when it then fails to delegate,
      // and nothing else changes
      ensures url !in old(ssps) ==>
        ssps == (if Creatable(url, drivers, scheme)
                 then old(ssps)[url := drivers[scheme(url).value].newProvider.value]
                 else old(ssps))
      ensures url !in old(ssps) ==>
        (r.Ok? <==> Creatable(url, drivers, scheme) && verifier(ssps[url], url).Some?)
      // a provider that cannot be had gives its own error
      ensures url !in old(ssps) && scheme(url).None? ==> r == Err(URLInvalid)
      ensures (url !in old(ssps) && scheme(url).Some? && scheme(url).value !in drivers) ==>
        r == Err(InvalidScheme(scheme(url).value))
      ensures (url !in old(ssps) && scheme(url).Some? && scheme(url).value in drivers &&
               drivers[scheme(url).value].newProvider.None?) ==> r == Err(ProviderFailed)
      ensures url !in old(ssps) && Creatable(url, drivers, scheme) && verifier(ssps[url], url).None? ==>
        r == Err(DelegateFailed)
    {
      var ssp := Ssp(url, drivers, scheme);
      if ssp.Err? {
        return Err(ssp.error);
      }
      var v := verifier(ssp.value, url);
      if v.None? {
        return Err(DelegateFailed);
      }
      return Ok(v.value);
    }
  }

  /** Two URLs with the same scheme get separate providers: after both are
      looked up, each has its own cache entry. */
  method SeparateEntriesPerURL<S>(p: StateServiceProvider<S>, u1: string, u2: string,
                                  drivers: map<string, SSPDriver<S>>, scheme: string -> Option<string>)
    returns (r1: Result<S, SspError>, r2: Result<S, SspError>)
    requires u1 != u2 && scheme(u1).Some? && scheme(u1) == scheme(u2)
    requires scheme(u1).value in drivers && drivers[scheme(u1).value].newProvider.Some?
    modifies p
    ensures r1.Ok? && r2.Ok? && u1 in p.ssps && u2 in p.ssps
    ensures p.ssps.Keys == old(p.ssps.Keys) + {u1, u2}
  {
    r1 := p.Ssp(u1, drivers, scheme);
    r2 := p.Ssp(u2, drivers, scheme);
  }
}
