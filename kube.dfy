/** The slice of the Kubernetes object model the core reads and writes. */
module Kube {
  import opened Wrappers

  datatype ObjectMeta = ObjectMeta(
    name: Option<string>,
    namespace: Option<string>,
    annotations: Option<map<string, string>>)

  /** One entry of `status.loadBalancer.ingress`. */
  datatype LoadBalancerIngress = LoadBalancerIngress(ip: Option<string>, hostname: Option<string>)

  datatype LoadBalancerStatus = LoadBalancerStatus(ingress: Option<seq<LoadBalancerIngress>>)

  datatype ServiceStatus = ServiceStatus(loadBalancer: Option<LoadBalancerStatus>)

  datatype Service = Service(metadata: ObjectMeta, status: Option<ServiceStatus>)

  /** Reference to the object an event is about (`Resource::object_ref`). */
  datatype ObjectReference = ObjectReference(kind: string, name: Option<string>, namespace: Option<string>)

  /** A failed API call (`kube::Error`); its content is not interpreted by the core. */
  datatype KubeError = KubeError(message: string)

  datatype EventType = Normal | Warning

  /** An event as handed to the event recorder; `note` is the rendered error. */
  datatype Event<N> = Event(
    reason: string,
    action: string,
    eventType: EventType,
    note: Option<N>,
    regarding: ObjectReference)
}
