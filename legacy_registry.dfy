/**
 * The older tree's `IPSourceRegistry`. It differs from the newer one in the error of a failed
 * listing, which becomes a `SourceError`. The older `ExternalIpSource` and its conversion are
 * not part of this model, so the registry takes the conversion and the name of a source as
 * parameters.
 */
module LegacyRegistry {
  import opened Wrappers
  import Crd
  import Kube
  import opened LegacyErrors
  import opened SourceIndex

  class IPSourceRegistry<S> {
    const convert: Item -> Result<S, SourceError>
    const name: S -> string
    var ceips: map<string, S>
    var events: seq<Kube.Event<SourceError>>

    /** Every source is registered under its own name. */
    predicate Valid()
      reads this
    {
      forall k :: k in ceips ==> name(ceips[k]) == k
    }

    /** The registry before its first refresh. */
    constructor (convert: Item -> Result<S, SourceError>, name: S -> string)
      ensures this.convert == convert && this.name == name
      ensures ceips == map[] && events == [] && Valid()
    {
      this.convert := convert;
      this.name := name;
      ceips := map[];
      events := [];
    }

    /**
     * `IPSourceRegistry::refresh`: a failed listing is returned as a `SourceError` and changes
     * nothing; otherwise the registry is replaced by the converted resources and one warning
     * is published per failure.
     */
    method Refresh(listing: Result<seq<Item>, Kube.KubeError>) returns (r: Result<(), SourceError>)
      modifies this
      ensures listing.Err? ==> r == Err(ListFailed(listing.error)) && ceips == old(ceips) && events == old(events)
      ensures listing.Ok? ==>
                r == Ok(()) && ceips == Index(Sources(listing.value, convert), name) &&
                events == old(events) + FailureEvents(Failures(listing.value, convert))
      ensures old(Valid()) || listing.Ok? ==> Valid()
    {
      if listing.Err? {
        return Err(ListFailed(listing.error));
      }
      var oks, errs := Partition(listing.value, convert);
      ceips := Collect(oks, name);
      Publish(errs);
      r := Ok(());
    }

    /** The loop publishing one warning per failure. */
    method Publish(errs: seq<(SourceError, Kube.ObjectReference)>)
      modifies this
      ensures ceips == old(ceips) && events == old(events) + FailureEvents(errs)
    {
      var i := 0;
      while i < |errs|
        invariant 0 <= i <= |errs|
        invariant ceips == old(ceips) && events == old(events) + FailureEvents(errs[..i])
      {
        assert errs[..i + 1][..i] == errs[..i];
        events := events + [FailureEvent(errs[i])];
        i := i + 1;
      }
      assert errs[..i] == errs;
    }

    /** `IPSourceRegistry::get_cluster`: the source registered under `n`, if any. */
    function GetCluster(n: string): (r: Option<S>)
      reads this
      requires Valid()
      ensures r.Some? <==> n in ceips
      ensures r.Some? ==> name(r.value) == n
    {
      if n in ceips then Some(ceips[n]) else None
    }
  }

  /** `IPSourceRegistry::new`: a registry refreshed once; a failed listing fails the construction. */
  method New<S>(convert: Item -> Result<S, SourceError>, name: S -> string, listing: Result<seq<Item>, Kube.KubeError>)
    returns (r: Result<IPSourceRegistry<S>, SourceError>)
    ensures listing.Err? <==> r.Err?
    ensures listing.Err? ==> r.error == ListFailed(listing.error)
    ensures r.Ok? ==>
              fresh(r.value) && r.value.Valid() && r.value.ceips == Index(Sources(listing.value, convert), name) &&
              r.value.events == FailureEvents(Failures(listing.value, convert))
  {
    var registry := new IPSourceRegistry(convert, name);
    var refreshed := registry.Refresh(listing);
    if refreshed.Err? {
      return Err(refreshed.error);
    }
    r := Ok(registry);
  }
}
