/** The error values that Sign and Check return (controllers/signer/err_*.go) and how the
    controllers look inside them. An error is a tree: the signer's own wrappers, the terminal error of
    controller-runtime, other single wrappers, and joins of several errors. `As` follows the search of Go's errors.As.
 */
module SignerErrors {
  import opened Conditions

  /** The wrappers the controllers look for, and the one controller-runtime looks for. */
  datatype Kind = IssuerErr | PendingErr | PermanentErr | ConditionErr | TerminalErr

  /** The condition carried by a SetCertificateRequestConditionError. */
  datatype CustomCondition = CustomCondition(ctype: ConditionType, status: Status, reason: Reason)

  datatype Error =
    | Plain(text: string)
    | IssuerError(err: Error)
    | PendingError(err: Error)
    | PermanentError(err: Error)
    | SetConditionError(err: Error, custom: CustomCondition)
    | Terminal(err: Error)
    | Wrapped(err: Error)
    | Joined(errs: seq<Error>)

  function KindOf(e: Error): Option<Kind> {
    match e
    case IssuerError(_) => Some(IssuerErr)
    case PendingError(_) => Some(PendingErr)
    case PermanentError(_) => Some(PermanentErr)
    case SetConditionError(_, _) => Some(ConditionErr)
    case Terminal(_) => Some(TerminalErr)
    case Plain(_) => None
    case Wrapped(_) => None
    case Joined(_) => None
  }

  /** errors.As: the first error of a kind, outermost first and joined errors from left to right. */
  function As(e: Error, k: Kind): Option<Error>
    decreases e, 0
  {
    if KindOf(e) == Some(k) then Some(e)
    else match e
      case Plain(_) => None
      case Joined(errs) => AsAny(errs, k)
      case IssuerError(err) => As(err, k)
      case PendingError(err) => As(err, k)
      case PermanentError(err) => As(err, k)
      case SetConditionError(err, _) => As(err, k)
      case Terminal(err) => As(err, k)
      case Wrapped(err) => As(err, k)
  }

  function AsAny(errs: seq<Error>, k: Kind): Option<Error>
    decreases errs, |errs|
  {
    if errs == [] then None
    else
      var first := As(errs[0], k);
      if first.Some? then first else AsAny(errs[1..], k)
  }

  /** Which kinds occur anywhere in an error, without regard to place. */
  ghost function Kinds(e: Error): set<Kind>
    decreases e
  {
    (if KindOf(e).Some? then {KindOf(e).value} else {}) +
    match e
    case Plain(_) => {}
    case Joined(errs) => set i, k | 0 <= i < |errs| && k in Kinds(errs[i]) :: k
    case IssuerError(err) => Kinds(err)
    case PendingError(err) => Kinds(err)
    case PermanentError(err) => Kinds(err)
    case SetConditionError(err, _) => Kinds(err)
    case Terminal(err) => Kinds(err)
    case Wrapped(err) => Kinds(err)
  }

  /** All that the request controller and controller-runtime learn about an error of Sign. */
  datatype Finding = Finding(
    issuer: Option<Error>, pending: bool, permanent: bool, terminal: bool, custom: Option<CustomCondition>)

  function Inspect(e: Error): Finding {
    Finding(IssuerPayload(e), As(e, PendingErr).Some?, As(e, PermanentErr).Some?, As(e, TerminalErr).Some?, CustomOf(e))
  }

  /** The kinds that were found. */
  function KindsFound(f: Finding): set<Kind> {
    (if f.issuer.Some? then {IssuerErr} else {}) + (if f.pending then {PendingErr} else {})
    + (if f.permanent then {PermanentErr} else {}) + (if f.terminal then {TerminalErr} else {})
    + (if f.custom.Some? then {ConditionErr} else {})
  }

  /** The error carried by the outermost IssuerError. */
  function IssuerPayload(e: Error): Option<Error> {
    match As(e, IssuerErr)
    case Some(IssuerError(err)) => Some(err)
    case _ => None
  }

  /** The condition carried by the outermost SetCertificateRequestConditionError. */
  function CustomOf(e: Error): Option<CustomCondition> {
    match As(e, ConditionErr)
    case Some(SetConditionError(_, c)) => Some(c)
    case _ => None
  }

  /** The ordered search finds something exactly when the kind occurs, and finds that kind. */
  lemma {:induction false} AsFindsKinds(e: Error, k: Kind)
    ensures As(e, k).Some? <==> k in Kinds(e)
    ensures As(e, k).Some? ==> KindOf(As(e, k).value) == Some(k)
    decreases e, 0
  {
    if KindOf(e) != Some(k) {
      match e
      case Plain(_) =>
      case Joined(errs) =>
        AsAnyFindsKinds(errs, k);
        assert k in Kinds(e) <==> exists i :: 0 <= i < |errs| && k in Kinds(errs[i]);
      case IssuerError(err) => AsFindsKinds(err, k);
      case PendingError(err) => AsFindsKinds(err, k);
      case PermanentError(err) => AsFindsKinds(err, k);
      case SetConditionError(err, _) => AsFindsKinds(err, k);
      case Terminal(err) => AsFindsKinds(err, k);
      case Wrapped(err) => AsFindsKinds(err, k);
    }
  }

  lemma {:induction false} AsAnyFindsKinds(errs: seq<Error>, k: Kind)
    ensures AsAny(errs, k).Some? <==> exists i :: 0 <= i < |errs| && k in Kinds(errs[i])
    ensures AsAny(errs, k).Some? ==> KindOf(AsAny(errs, k).value) == Some(k)
    decreases errs, |errs|
  {
    if errs != [] {
      AsFindsKinds(errs[0], k);
      AsAnyFindsKinds(errs[1..], k);
      forall i | 0 <= i < |errs[1..]| && k in Kinds(errs[1..][i])
        ensures k in Kinds(errs[i + 1])
      {
      }
      if AsAny(errs, k).None? {
        forall i | 0 <= i < |errs| ensures k !in Kinds(errs[i]) {
          assert i == 0 || errs[i] == errs[1..][i - 1];
        }
      }
    }
  }

  /** The kinds that occur in an error decide all that is asked about it. */
  lemma {:induction false} InspectFindsKinds(e: Error)
    ensures Inspect(e).issuer.Some? <==> IssuerErr in Kinds(e)
    ensures Inspect(e).pending <==> PendingErr in Kinds(e)
    ensures Inspect(e).permanent <==> PermanentErr in Kinds(e)
    ensures Inspect(e).terminal <==> TerminalErr in Kinds(e)
    ensures Inspect(e).custom.Some? <==> ConditionErr in Kinds(e)
  {
    AsFindsKinds(e, IssuerErr);
    AsFindsKinds(e, PendingErr);
    AsFindsKinds(e, PermanentErr);
    AsFindsKinds(e, TerminalErr);
    AsFindsKinds(e, ConditionErr);
  }
}
