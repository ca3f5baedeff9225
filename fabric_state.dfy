/** The per-URL caches of the Fabric state service provider
    (token/core/fabric/fabric.go): a query executor and a state verifier are
    created on a miss by the state driver that the network's public
    parameters name, and every failure leaves both caches as they were. */
module FabricState {
  import opened Results
  import opened Tokens

  /** A state driver: what it builds for a URL of a remote network; None is
      an instantiation error. */
  datatype StateDriver<QE, SV> = StateDriver(newQueryExecutor: string -> Option<QE>, newVerifier: string -> Option<SV>)

  /** How a URL relates to the token management services of this node. */
  datatype LocalTMS = URLMalformed | UnknownTMS | KnownTMS(identifier: string)

  /** The services the caches consult: the public parameters fetched from a
      URL through the relay, the driver identifier the parameters name, and
      the local TMS a URL refers to. None stands for an error. */
  datatype Network = Network(
    fetch: string -> Option<Bytes>,
    identifierOf: Bytes -> Option<string>,
    localTMS: string -> LocalTMS)

  datatype CacheError =
    | FetchFailed
    | ParamsMalformed
    | URLInvalid
    | UnknownDriver(identifier: string)
    | QueryExecutorFailed
    | VerifierFailed

  /** The identifier of the driver named by the public parameters fetched from url. */
  function FetchedIdentifier(net: Network, url: string): (r: Result<string, CacheError>)
    ensures r.Ok? <==> net.fetch(url).Some? && net.identifierOf(net.fetch(url).value).Some?
    ensures r.Ok? ==> r.value == net.identifierOf(net.fetch(url).value).value
  {
    match net.fetch(url)
    case None => Err(FetchFailed)
    case Some(raw) =>
      match net.identifierOf(raw)
      case None => Err(ParamsMalformed)
      case Some(id) => Ok(id)
  }

  /** The driver identifier a verifier for url is built with: the local TMS's
      own when the URL names one, otherwise the fetched parameters'. */
  function VerifierIdentifier(net: Network, url: string): (r: Result<string, CacheError>)
    ensures net.localTMS(url).URLMalformed? ==> r == Err(URLInvalid)
    // a known TMS never needs a fetch
    ensures net.localTMS(url).KnownTMS? ==> r == Ok(net.localTMS(url).identifier)
    ensures net.localTMS(url).UnknownTMS? ==> r == FetchedIdentifier(net, url)
  {
    match net.localTMS(url)
    case URLMalformed => Err(URLInvalid)
    case KnownTMS(id) => Ok(id)
    case UnknownTMS => FetchedIdentifier(net, url)
  }

  class StateServiceProvider<QE, SV> {
    var queryExecutors: map<string, QE>
    var verifiers: map<string, SV>

    /** Every URL with a query executor also has a verifier. */
    ghost predicate Valid()
      reads this
    {
      queryExecutors.Keys <= verifiers.Keys
    }

    constructor()
      ensures queryExecutors == map[] && verifiers == map[]
      ensures Valid()
    {
      queryExecutors := map[];
      verifiers := map[];
    }

    /** The query executor for url, cached or created with the driver; drivers
        is the content of the state-driver registry. */
    method QueryExecutor(url: string, drivers: map<string, StateDriver<QE, SV>>, net: Network)
      returns (r: Result<QE, CacheError>)
      requires Valid()
      modifies this
      ensures Valid()
      // a hit is returned as it is, without fetching
      ensures url in old(queryExecutors) ==>
        r == Ok(old(queryExecutors)[url]) && queryExecutors == old(queryExecutors) && verifiers == old(verifiers)
      // any failure leaves both caches untouched
      ensures r.Err? ==> queryExecutors == old(queryExecutors) && verifiers == old(verifiers)
      // a miss succeeds exactly when the parameters name a driver that builds both
      ensures url !in old(queryExecutors) ==>
        (r.Ok? <==>
          var id := FetchedIdentifier(net, url);
          id.Ok? && id.value in drivers &&
          drivers[id.value].newQueryExecutor(url).Some? && drivers[id.value].newVerifier(url).Some?)
      // and then stores both for url
      ensures url !in old(queryExecutors) && r.Ok? ==>
        var d := drivers[FetchedIdentifier(net, url).value];
        r.value == d.newQueryExecutor(url).value &&
        queryExecutors == old(queryExecutors)[url := r.value] &&
        verifiers == old(verifiers)[url := d.newVerifier(url).value]
    {
      if url in queryExecutors {
        return Ok(queryExecutors[url]);
      }
      var ppRaw := net.fetch(url);
      if ppRaw.None? {
        return Err(FetchFailed);
      }
      var id := net.identifierOf(ppRaw.value);
      if id.None? {
        return Err(ParamsMalformed);
      }
      if id.value !in drivers {
        return Err(UnknownDriver(id.value));
      }
      var driver := drivers[id.value];
      var qe := driver.newQueryExecutor(url);
      if qe.None? {
        return Err(QueryExecutorFailed);
      }
      var v := driver.newVerifier(url);
      if v.None? {
        return Err(VerifierFailed);
      }
      queryExecutors := queryExecutors[url := qe.value];
      verifiers := verifiers[url := v.value];
      return Ok(qe.value);
    }

    /** The state verifier for url, cached or created with the driver; only
        the verifier cache is ever written. */
    method Verifier(url: string, drivers: map<string, StateDriver<QE, SV>>, net: Network)
      returns (r: Result<SV, CacheError>)
      requires Valid()
      modifies this
      ensures Valid()
      ensures queryExecutors == old(queryExecutors)
      ensures url in old(verifiers) ==> r == Ok(old(verifiers)[url]) && verifiers == old(verifiers)
      ensures r.Err? ==> verifiers == old(verifiers)
      ensures url !in old(verifiers) ==>
        (r.Ok? <==>
          var id := VerifierIdentifier(net, url);
          id.Ok? && id.value in drivers && drivers[id.value].newVerifier(url).Some?)
      ensures url !in old(verifiers) && r.Ok? ==>
        r.value == drivers[VerifierIdentifier(net, url).value].newVerifier(url).value &&
        verifiers == old(verifiers)[url := r.value]
    {
      if url in verifiers {
        return Ok(verifiers[url]);
      }
      var identifier: string;
      var tms := net.localTMS(url);
      if tms.URLMalformed? {
        return Err(URLInvalid);
      }
      if tms.KnownTMS? {
        identifier := tms.identifier;
      } else {
        var ppRaw := net.fetch(url);
        if ppRaw.None? {
          return Err(FetchFailed);
        }
        var id := net.identifierOf(ppRaw.value);
        if id.None? {
          return Err(ParamsMalformed);
        }
        identifier := id.value;
      }
      if identifier !in drivers {
        return Err(UnknownDriver(identifier));
      }
      var v := drivers[identifier].newVerifier(url);
      if v.None? {
        return Err(VerifierFailed);
      }
      verifiers := verifiers[url := v.value];
      return Ok(v.value);
    }
  }
}
