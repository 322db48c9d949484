/**
 * The service finder: of the listed services, those whose annotations name a cluster
 * external IP source, each paired with that source.
 */
module Svc {
  import opened Wrappers
  import Kube
  import ExtSource

  const ANNOTATION_CLUSTER_EXTERNAL_IP_SOURCE: string := "externalip.spacebird.dev/cluster-external-ip-source"

  /** A service to manage and the source its addresses come from. */
  datatype ExternalIpSvc = ExternalIpSvc(svc: Kube.Service, source: ExtSource.ExternalIpSourceKind)

  datatype FinderError = FinderError(msg: string)

  /** The source a service is annotated with: none without annotations or without the key. */
  function AnnotatedSource(svc: Kube.Service): (r: Option<string>)
    ensures r.Some? <==>
              svc.metadata.annotations.Some? && ANNOTATION_CLUSTER_EXTERNAL_IP_SOURCE in svc.metadata.annotations.value
    ensures r.Some? ==> r.value == svc.metadata.annotations.value[ANNOTATION_CLUSTER_EXTERNAL_IP_SOURCE]
  {
    match svc.metadata.annotations
    case None => None
    case Some(annotations) =>
      if ANNOTATION_CLUSTER_EXTERNAL_IP_SOURCE in annotations
      then Some(annotations[ANNOTATION_CLUSTER_EXTERNAL_IP_SOURCE])
      else None
  }

  /** The `filter_map` of `find_annotated_svcs` over the listed services. */
  function FindAnnotated(svcs: seq<Kube.Service>): (r: seq<Result<ExternalIpSvc, FinderError>>)
    ensures |r| <= |svcs|
    ensures forall j :: 0 <= j < |r| ==> r[j].Ok?
    ensures forall j :: 0 <= j < |r| ==>
              exists i :: 0 <= i < |svcs| && r[j].value.svc == svcs[i] &&
                AnnotatedSource(svcs[i]) == Some(r[j].value.source.name)
  {
    if svcs == [] then []
    else
      var rest := FindAnnotated(svcs[1..]);
      assert forall j :: 0 <= j < |rest| ==>
          exists i :: 0 <= i < |svcs| && rest[j].value.svc == svcs[i] && AnnotatedSource(svcs[i]) == Some(rest[j].value.source.name) by {
        forall j | 0 <= j < |rest|
          ensures exists i :: 0 <= i < |svcs| && rest[j].value.svc == svcs[i] && AnnotatedSource(svcs[i]) == Some(rest[j].value.source.name)
        {
          var i :| 0 <= i < |svcs| - 1 && rest[j].value.svc == svcs[1..][i] && AnnotatedSource(svcs[1..][i]) == Some(rest[j].value.source.name);
          assert svcs[1..][i] == svcs[i + 1];
        }
      }
      match AnnotatedSource(svcs[0])
      case Some(source) => [Ok(ExternalIpSvc(svcs[0], ExtSource.Cluster(source)))] + rest
      case None => rest
  }

  /** One service: kept with exactly its annotation value as the source, or dropped. */
  lemma FindAnnotatedSingle(svc: Kube.Service)
    ensures AnnotatedSource(svc).None? ==> FindAnnotated([svc]) == []
    ensures AnnotatedSource(svc).Some? ==>
              FindAnnotated([svc]) == [Ok(ExternalIpSvc(svc, ExtSource.Cluster(AnnotatedSource(svc).value)))]
  {
    assert [svc][1..] == [];
  }

  /** The finder works service by service: the listing order is kept. */
  lemma {:induction false} FindAnnotatedAppend(a: seq<Kube.Service>, b: seq<Kube.Service>)
    ensures FindAnnotated(a + b) == FindAnnotated(a) + FindAnnotated(b)
  {
    if a == [] {
      assert a + b == b;
    } else {
      assert (a + b)[0] == a[0] && (a + b)[1..] == a[1..] + b;
      FindAnnotatedAppend(a[1..], b);
    }
  }

  /** Every annotated service is found. */
  lemma {:induction false} AnnotatedServicesFound(svcs: seq<Kube.Service>, i: nat)
    requires i < |svcs| && AnnotatedSource(svcs[i]).Some?
    ensures Ok(ExternalIpSvc(svcs[i], ExtSource.Cluster(AnnotatedSource(svcs[i]).value))) in FindAnnotated(svcs)
  {
    if i > 0 {
      assert svcs[1..][i - 1] == svcs[i];
      AnnotatedServicesFound(svcs[1..], i - 1);
    }
  }

  /** `ServiceFinder::find_annotated_svcs`: a failed listing is returned as is; a listing is filtered by `FindAnnotated`. */
  function FindAnnotatedSvcs(listing: Result<seq<Kube.Service>, Kube.KubeError>): (r: Result<seq<Result<ExternalIpSvc, FinderError>>, Kube.KubeError>)
    ensures listing.Err? <==> r.Err?
    ensures listing.Err? ==> r.error == listing.error
    ensures r.Ok? ==> r.value == FindAnnotated(listing.value)
    ensures r.Ok? ==> |r.value| <= |listing.value| && forall j :: 0 <= j < |r.value| ==> r.value[j].Ok?
  {
    match listing
    case Err(e) => Err(e)
    case Ok(svcs) => Ok(FindAnnotated(svcs))
  }
}
