/**
 * The newer tree's `IPSourceRegistry`: the `ClusterExternalIPSource` resources of the
 * cluster, converted and indexed by name, with an event for each resource that does not
 * convert. The Kubernetes list call becomes the `listing` argument of a refresh.
 */
module ExtRegistry {
  import opened Wrappers
  import Crd
  import Kube
  import ExtErrors
  import ExtSource
  import opened SourceIndex

  type Source = ExtSource.ExternalIpSource

  /** `ExternalIpSource::name`: the name of the resource the source was converted from. */
  function Name(s: Source): string {
    s.kind.name
  }

  /** The registry a successful refresh of `items` leaves. */
  function Refreshed(items: seq<Item>): map<string, Source> {
    Index(Sources(items, ExtSource.SourceFrom), Name)
  }

  /** A name is registered exactly when a listed resource of that name converts. */
  lemma RegisteredIffConverts(items: seq<Item>, n: string)
    ensures n in Refreshed(items) <==>
              exists i :: 0 <= i < |items| && ExtSource.SourceFrom(items[i]).Ok? && items[i].metadata.name.GetOr("") == n
  {
    IndexedIffConverted(items, ExtSource.SourceFrom, Name, n);
  }

  /** A resource with no conversion error after it under the same name is the one registered. */
  lemma LastResourceRegistered(items: seq<Item>, n: string, i: nat)
    requires i < |items| && ExtSource.SourceFrom(items[i]).Ok? && items[i].metadata.name.GetOr("") == n
    requires forall l :: i < l < |items| && ExtSource.SourceFrom(items[l]).Ok? ==> items[l].metadata.name.GetOr("") != n
    ensures n in Refreshed(items) && Refreshed(items)[n] == ExtSource.SourceFrom(items[i]).value
  {
    LastConvertedWins(items, ExtSource.SourceFrom, Name, i);
  }

  class IPSourceRegistry {
    var ceips: map<string, Source>
    var events: seq<Kube.Event<ExtErrors.IpSourceError>>

    /** Every source is registered under its own name. */
    predicate Valid()
      reads this
    {
      forall k :: k in ceips ==> Name(ceips[k]) == k
    }

    /** The registry before its first refresh. */
    constructor ()
      ensures ceips == map[] && events == [] && Valid()
    {
      ceips := map[];
      events := [];
    }

    /**
     * `IPSourceRegistry::refresh`: a failed listing is returned and changes nothing; otherwise
     * the registry is replaced by the converted resources and one warning is published per
     * failure.
     */
    method Refresh(listing: Result<seq<Item>, Kube.KubeError>) returns (r: Result<(), Kube.KubeError>)
      modifies this
      ensures listing.Err? ==> r == Err(listing.error) && ceips == old(ceips) && events == old(events)
      ensures listing.Ok? ==>
                r == Ok(()) && ceips == Refreshed(listing.value) &&
                events == old(events) + FailureEvents(Failures(listing.value, ExtSource.SourceFrom))
      ensures old(Valid()) || listing.Ok? ==> Valid()
    {
      if listing.Err? {
        return Err(listing.error);
      }
      var oks, errs := Partition(listing.value, ExtSource.SourceFrom);
      ceips := Collect(oks, Name);
      Publish(errs);
      r := Ok(());
    }

    /** The loop publishing one warning per failure. */
    method Publish(errs: seq<(ExtErrors.IpSourceError, Kube.ObjectReference)>)
      modifies this
      ensures ceips == old(ceips) && events == old(events) + FailureEvents(errs)
    {
      var i := 0;
      while i < |errs|
        invariant 0 <= i <= |errs|
        invariant ceips == old(ceips) && events == old(events) + FailureEvents(errs[..i])
      {
        assert errs[..i + 1][..i] == errs[..i];
        events := events + [FailureEvent(errs[i])];
        i := i + 1;
      }
      assert errs[..i] == errs;
    }

    /** `IPSourceRegistry::get_cluster`: the source registered under `name`, if any. */
    function GetCluster(name: string): (r: Option<Source>)
      reads this
      requires Valid()
      ensures r.Some? <==> name in ceips
      ensures r.Some? ==> Name(r.value) == name
    {
      if name in ceips then Some(ceips[name]) else None
    }
  }

  /** `IPSourceRegistry::new`: a registry refreshed once; a failed listing fails the construction. */
  method New(listing: Result<seq<Item>, Kube.KubeError>) returns (r: Result<IPSourceRegistry, Kube.KubeError>)
    ensures listing.Err? <==> r.Err?
    ensures listing.Err? ==> r.error == listing.error
    ensures r.Ok? ==>
              fresh(r.value) && r.value.Valid() && r.value.ceips == Refreshed(listing.value) &&
              r.value.events == FailureEvents(Failures(listing.value, ExtSource.SourceFrom))
  {
    var registry := new IPSourceRegistry();
    var refreshed := registry.Refresh(listing);
    if refreshed.Err? {
      return Err(refreshed.error);
    }
    r := Ok(registry);
  }
}
