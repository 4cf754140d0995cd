/** The two request objects and their status tests
    (controllers/request_objecthelper_certificaterequest.go,
    controllers/request_objecthelper_certificatesigningrequest.go), and issuer objects as both
    controllers read them.
 */
module Requests {
  import opened Conditions

  type Bytes = seq<bv8>

  /** None is Go's nil map, which differs from the empty map when annotations are compared. */
  type Annotations = Option<map<string, string>>

  datatype NamespacedName = NamespacedName(namespace: string, name: string)

  datatype Meta = Meta(key: NamespacedName, annotations: Annotations, creation: Time)

  datatype IssuerRef = IssuerRef(group: string, kind: string, name: string)

  datatype RequestStatus = RequestStatus(
    conditions: seq<Condition>,
    certificate: Bytes,
    ca: Bytes,
    failureTime: Option<Time>)

  const EMPTY_STATUS := RequestStatus([], [], [], None)

  datatype Request =
    | CertificateRequest(meta: Meta, issuerRef: IssuerRef, status: RequestStatus)
    | SigningRequest(meta: Meta, signerName: string, status: RequestStatus)
  {
    predicate IsApproved() {
      Has(status.conditions, Approved, True)
    }

    predicate IsDenied() {
      match this
      case CertificateRequest(_, _, _) => HasWithReason(status.conditions, Ready, False, WasDenied)
      case SigningRequest(_, _, _) => Has(status.conditions, Denied, True)
    }

    predicate IsReady() {
      match this
      case CertificateRequest(_, _, _) => Has(status.conditions, Ready, True)
      case SigningRequest(_, _, _) => |status.certificate| > 0
    }

    predicate IsFailed() {
      match this
      case CertificateRequest(_, _, _) => HasWithReason(status.conditions, Ready, False, HasFailed)
      case SigningRequest(_, _, _) => Has(status.conditions, Failed, True)
    }

    predicate IsTerminal() {
      IsReady() || IsFailed() || IsDenied()
    }

    function WithStatus(s: RequestStatus): Request {
      match this
      case CertificateRequest(m, ref, _) => CertificateRequest(m, ref, s)
      case SigningRequest(m, name, _) => SigningRequest(m, name, s)
    }
  }

  datatype Issuer = Issuer(generation: int, annotations: Annotations, conditions: seq<Condition>) {

    /** A request waits for an issuer without a Ready condition, with one for an older generation, or
        with one that is not True. */
    predicate NotReadyFor() {
      var ready := Get(conditions, Ready);
      ready.None? || ready.value.stamp < generation || ready.value.status != True
    }
  }

  /** The answer of a read through the API client. */
  datatype Read<+T> = Found(value: T) | NotFound | ReadError

  /** What a request waits for: an issuer that is missing or not ready. */
  predicate Waits(issuer: Read<Issuer>) {
    issuer.NotFound? || (issuer.Found? && issuer.value.NotReadyFor())
  }
}
