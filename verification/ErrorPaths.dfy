/** Where an error occurs inside another: the errors of a tree by their paths, and what the ordered search of
    errors.As finds in these terms. A path lists which part is entered, from the outside in.
 */
module ErrorPaths {
  import opened Conditions
  import opened SignerErrors

  type Path = seq<nat>

  /** The errors directly inside an error, from left to right. */
  function Parts(e: Error): seq<Error> {
    match e
    case Plain(_) => []
    case IssuerError(err) => [err]
    case PendingError(err) => [err]
    case PermanentError(err) => [err]
    case SetConditionError(err, _) => [err]
    case Terminal(err) => [err]
    case Wrapped(err) => [err]
    case Joined(errs) => errs
  }

  function At(e: Error, p: Path): Option<Error>
    decreases |p|
  {
    if p == [] then Some(e)
    else if p[0] < |Parts(e)| then At(Parts(e)[p[0]], p[1..])
    else None
  }

  /** Path p comes before path q: it leads to an error around that of q, or to one further left. */
  predicate Before(p: Path, q: Path)
    decreases |p|
  {
    q != [] && (p == [] || p[0] < q[0] || (p[0] == q[0] && Before(p[1..], q[1..])))
  }

  predicate IsA(e: Error, k: Kind) {
    match k
    case IssuerErr => e.IssuerError?
    case PendingErr => e.PendingError?
    case PermanentErr => e.PermanentError?
    case ConditionErr => e.SetConditionError?
    case TerminalErr => e.Terminal?
  }

  /** There is an error of the kind at the path. */
  predicate Occurs(e: Error, p: Path, k: Kind) {
    At(e, p).Some? && IsA(At(e, p).value, k)
  }

  /** The path leads to an error of the kind and comes before all others that do. */
  ghost predicate IsOutermost(e: Error, p: Path, k: Kind) {
    Occurs(e, p, k) && forall q :: Occurs(e, q, k) ==> q == p || Before(p, q)
  }

  lemma {:induction false} SearchesOutsideIn(e: Error, k: Kind)
    ensures As(e, k) == if IsA(e, k) then Some(e) else AsAny(Parts(e), k)
  {
    if !IsA(e, k) && |Parts(e)| == 1 {
      var part := Parts(e)[0];
      assert Parts(e)[1..] == [];
      assert AsAny(Parts(e), k) == As(part, k);
    }
  }

  /** The search finds the outermost error of the kind, and of several in a join the leftmost. */
  lemma {:induction false} AsIsOutermost(e: Error, k: Kind) returns (p: Path)
    requires As(e, k).Some?
    ensures At(e, p) == As(e, k) && IsOutermost(e, p, k)
    decreases e, 0
  {
    SearchesOutsideIn(e, k);
    if IsA(e, k) {
      p := [];
    } else {
      var i: nat, rest: Path := 0, [];
      if e.Joined? {
        i, rest := AsAnyIsLeftmost(e.errs, k);
      } else {
        assert Parts(e) == [e.err];
        rest := AsIsOutermost(e.err, k);
      }
      p := [i] + rest;
      assert p[1..] == rest;
      forall q | Occurs(e, q, k) ensures q == p || Before(p, q) {
        assert q != [] && q[0] < |Parts(e)| && Occurs(Parts(e)[q[0]], q[1..], k);
        assert q == [q[0]] + q[1..];
      }
    }
  }

  lemma {:induction false} AsAnyIsLeftmost(errs: seq<Error>, k: Kind) returns (i: nat, p: Path)
    requires AsAny(errs, k).Some?
    ensures i < |errs| && At(errs[i], p) == AsAny(errs, k) && IsOutermost(errs[i], p, k)
    ensures forall j, q :: 0 <= j < i ==> !Occurs(errs[j], q, k)
    decreases errs, |errs|
  {
    if As(errs[0], k).Some? {
      i := 0;
      p := AsIsOutermost(errs[0], k);
    } else {
      forall q ensures !Occurs(errs[0], q, k) {
        if Occurs(errs[0], q, k) {
          OccursInKinds(errs[0], q, k);
          AsFindsKinds(errs[0], k);
        }
      }
      var j;
      j, p := AsAnyIsLeftmost(errs[1..], k);
      i := j + 1;
      assert errs[1..][j] == errs[i];
      forall n, q | 0 <= n < i ensures !Occurs(errs[n], q, k) {
        assert n > 0 ==> errs[n] == errs[1..][n - 1];
      }
    }
  }

  lemma {:induction false} OccursInKinds(e: Error, p: Path, k: Kind)
    requires Occurs(e, p, k)
    ensures k in Kinds(e)
    decreases |p|
  {
    if p != [] {
      OccursInKinds(Parts(e)[p[0]], p[1..], k);
    }
  }

  /** The kinds of an error are those of the errors that occur in it. */
  lemma {:induction false} KindsAreThoseThatOccur(e: Error, k: Kind)
    ensures k in Kinds(e) <==> exists p :: Occurs(e, p, k)
  {
    AsFindsKinds(e, k);
    if k in Kinds(e) {
      var p := AsIsOutermost(e, k);
    }
    forall p | Occurs(e, p, k) ensures k in Kinds(e) {
      OccursInKinds(e, p, k);
    }
  }

  /** The reported error is the one inside the outermost issuer error. */
  lemma {:induction false} PayloadIsOutermost(e: Error)
    ensures IssuerPayload(e).Some? <==> exists p :: Occurs(e, p, IssuerErr)
    ensures forall p :: IsOutermost(e, p, IssuerErr) ==> IssuerPayload(e) == Some(At(e, p).value.err)
  {
    AsFindsKinds(e, IssuerErr);
    KindsAreThoseThatOccur(e, IssuerErr);
    if As(e, IssuerErr).Some? {
      var q := AsIsOutermost(e, IssuerErr);
      forall p | IsOutermost(e, p, IssuerErr) ensures p == q {
        OutermostIsUnique(e, p, q, IssuerErr);
      }
    }
  }

  /** The custom condition is that of the outermost condition error. */
  lemma {:induction false} CustomIsOutermost(e: Error)
    ensures CustomOf(e).Some? <==> exists p :: Occurs(e, p, ConditionErr)
    ensures forall p :: IsOutermost(e, p, ConditionErr) ==> CustomOf(e) == Some(At(e, p).value.custom)
  {
    AsFindsKinds(e, ConditionErr);
    KindsAreThoseThatOccur(e, ConditionErr);
    if As(e, ConditionErr).Some? {
      var q := AsIsOutermost(e, ConditionErr);
      forall p | IsOutermost(e, p, ConditionErr) ensures p == q {
        OutermostIsUnique(e, p, q, ConditionErr);
      }
    }
  }

  lemma {:induction false} OutermostIsUnique(e: Error, p: Path, q: Path, k: Kind)
    requires IsOutermost(e, p, k) && IsOutermost(e, q, k)
    ensures p == q
  {
    if p != q {
      BeforeIsOneWay(p, q);
    }
  }

  lemma {:induction false} BeforeIsOneWay(p: Path, q: Path)
    ensures !(Before(p, q) && Before(q, p))
    decreases |p|
  {
    if p != [] && q != [] {
      BeforeIsOneWay(p[1..], q[1..]);
    }
  }
}
