/** Which issuer a request refers to: the type list (controllers/request_controller.go), first-match
    selection (controllers/certificaterequest_controller.go,
    controllers/certificatesigningrequest_controller.go) and the "namespace/name" keys of the
    request index.
 */
module IssuerTypes {
  import opened Conditions
  import opened Requests

  datatype GroupVersionKind = GroupVersionKind(group: string, version: string, kind: string)

  datatype IssuerType = IssuerType(gvk: GroupVersionKind, identifier: string, namespaced: bool)

  datatype IssuerKey = IssuerKey(gvk: GroupVersionKind, name: NamespacedName)

  /*** Strings with one separator ***/

  ghost predicate SlashFree(s: string) {
    '/' !in s
  }

  /** strings.Split(s, "/"): the part before the first slash, then the parts of the rest. */
  function Split(s: string): (parts: seq<string>)
    ensures |parts| >= 1
  {
    SplitFrom([], s)
  }

  function SplitFrom(current: string, rest: string): (parts: seq<string>)
    ensures |parts| >= 1
    decreases rest
  {
    if rest == [] then [current]
    else if rest[0] == '/' then [current] + SplitFrom([], rest[1..])
    else SplitFrom(current + [rest[0]], rest[1..])
  }

  function Key(n: NamespacedName): string {
    n.namespace + "/" + n.name
  }

  lemma {:induction false} SplitSlashFree(current: string, rest: string)
    requires SlashFree(rest)
    ensures SplitFrom(current, rest) == [current + rest]
    decreases rest
  {
    if rest != [] {
      SplitSlashFree(current + [rest[0]], rest[1..]);
      assert current + [rest[0]] + rest[1..] == current + rest;
    } else {
      assert current + rest == current;
    }
  }

  lemma {:induction false} SplitAtSlash(current: string, a: string, b: string)
    requires SlashFree(a)
    ensures SplitFrom(current, a + "/" + b) == [current + a] + SplitFrom([], b)
    decreases a
  {
    var s := a + "/" + b;
    if a == [] {
      assert s[0] == '/' && s[1..] == b && current + a == current;
    } else {
      assert s[0] == a[0] && s[1..] == a[1..] + "/" + b;
      SplitAtSlash(current + [a[0]], a[1..], b);
      assert current + [a[0]] + a[1..] == current + a;
    }
  }

  /** A split into one or two parts can be read back, and its parts hold no slash. */
  lemma {:induction false} SplitInverse(current: string, rest: string)
    requires SlashFree(current)
    ensures var p := SplitFrom(current, rest);
            && (|p| == 1 ==> SlashFree(rest))
            && (|p| == 2 ==> SlashFree(p[0]) && SlashFree(p[1]) && current + rest == p[0] + "/" + p[1])
    decreases rest
  {
    if rest == [] {
    } else if rest[0] == '/' {
      SplitInverse([], rest[1..]);
      if |SplitFrom(current, rest)| == 2 {
        SplitSlashFree([], rest[1..]);
        assert [] + rest[1..] == rest[1..];
        assert current + rest == current + "/" + rest[1..];
      }
    } else {
      SplitInverse(current + [rest[0]], rest[1..]);
      assert current + [rest[0]] + rest[1..] == current + rest;
    }
  }

  /** Printing and parsing of "first/second" undo each other exactly on slash-free parts. */
  lemma {:induction false} SplitRoundTrip(a: string, b: string, s: string)
    ensures Split(a + "/" + b) == [a, b] <==> SlashFree(a) && SlashFree(b)
    ensures |Split(s)| == 2 ==> s == Split(s)[0] + "/" + Split(s)[1] && SlashFree(Split(s)[0]) && SlashFree(Split(s)[1])
  {
    if SlashFree(a) && SlashFree(b) {
      SplitAtSlash([], a, b);
      SplitSlashFree([], b);
      assert [] + a == a && [] + b == b;
    }
    SplitInverse([], a + "/" + b);
    SplitInverse([], s);
    assert [] + s == s;
  }

  /** The index key of a real object, whose names hold no slash, is the key of no other reference,
      even of one whose issuer name holds slashes. */
  lemma {:induction false} KeyIsUnambiguous(obj: NamespacedName, ref: NamespacedName)
    requires SlashFree(obj.namespace) && SlashFree(obj.name)
    ensures Key(obj) == Key(ref) <==> obj == ref
    ensures Split(Key(obj)) == [obj.namespace, obj.name]
  {
    SplitRoundTrip(obj.namespace, obj.name, "");
    if Key(obj) == Key(ref) {
      var i, j := |obj.namespace|, |ref.namespace|;
      var k := Key(obj);
      assert k[i] == '/' && k[j] == Key(ref)[j] == '/';
      assert i == j by {
        assert forall n :: 0 <= n < |k| && n != i ==> k[n] in obj.namespace + obj.name;
      }
      assert obj.namespace == k[..i] && ref.namespace == Key(ref)[..j];
      assert obj.name == k[i + 1..] && ref.name == Key(ref)[j + 1..];
    }
  }

  /*** First-match selection ***/

  predicate RefersTo(ref: IssuerRef, t: IssuerType) {
    ref.group == t.gvk.group && (ref.kind == "" || ref.kind == t.gvk.kind)
  }

  function MatchRef(types: seq<IssuerType>, ref: IssuerRef, namespace: string): Option<IssuerKey> {
    if types == [] then None
    else if RefersTo(ref, types[0]) then
      Some(IssuerKey(types[0].gvk, NamespacedName(if types[0].namespaced then namespace else "", ref.name)))
    else MatchRef(types[1..], ref, namespace)
  }

  function MatchSigner(types: seq<IssuerType>, identifier: string, name: string): Option<IssuerKey> {
    if types == [] then None
    else if types[0].identifier != identifier then MatchSigner(types[1..], identifier, name)
    else if types[0].namespaced then None
    else Some(IssuerKey(types[0].gvk, NamespacedName("", name)))
  }

  /** matchIssuerType of both controllers; None stands for the error of a foreign issuer. */
  function MatchIssuerType(types: seq<IssuerType>, r: Request): Option<IssuerKey> {
    match r
    case CertificateRequest(meta, ref, _) => MatchRef(types, ref, meta.key.namespace)
    case SigningRequest(_, signerName, _) =>
      var split := Split(signerName);
      if |split| != 2 then None else MatchSigner(types, split[0], split[1])
  }

  /** The type list as SetupWithManager builds it: namespaced types before cluster types. */
  ghost predicate NamespacedFirst(types: seq<IssuerType>) {
    forall i, j :: 0 <= i < j < |types| && types[j].namespaced ==> types[i].namespaced
  }

  /** A CertificateRequest is matched by the first type of the group of its reference that has the kind of the
      reference, or any kind if the reference names none; and by nothing exactly when there is no such type. */
  lemma {:induction false} MatchRefIsFirst(types: seq<IssuerType>, r: Request)
    requires r.CertificateRequest?
    ensures MatchIssuerType(types, r).None?
            <==> forall t :: t in types ==>
                   t.gvk.group != r.issuerRef.group || (r.issuerRef.kind != "" && t.gvk.kind != r.issuerRef.kind)
    ensures forall k :: 0 <= k < |types|
              && types[k].gvk.group == r.issuerRef.group
              && (r.issuerRef.kind == "" || types[k].gvk.kind == r.issuerRef.kind)
              && (forall j :: 0 <= j < k ==>
                    types[j].gvk.group != r.issuerRef.group
                    || (r.issuerRef.kind != "" && types[j].gvk.kind != r.issuerRef.kind))
              ==> MatchIssuerType(types, r)
                  == Some(IssuerKey(types[k].gvk,
                                    NamespacedName(if types[k].namespaced then r.meta.key.namespace else "",
                                                   r.issuerRef.name)))
  {
    if types != [] {
      var rest := types[1..];
      MatchRefIsFirst(rest, r);
      assert forall t :: t in types <==> t == types[0] || t in rest;
      assert forall j :: 1 <= j < |types| ==> types[j] == rest[j - 1];
      forall k | 0 <= k < |types| && RefersTo(r.issuerRef, types[k])
          && forall j :: 0 <= j < k ==> !RefersTo(r.issuerRef, types[j])
        ensures MatchIssuerType(types, r)
                == Some(IssuerKey(types[k].gvk,
                                  NamespacedName(if types[k].namespaced then r.meta.key.namespace else "",
                                                 r.issuerRef.name)))
      {
        if k > 0 {
          assert !RefersTo(r.issuerRef, types[0]);
          assert forall j :: 0 <= j < k - 1 ==> !RefersTo(r.issuerRef, rest[j]);
          assert RefersTo(r.issuerRef, rest[k - 1]);
        }
      }
    }
  }

  /** A CertificateRequest is matched by a namespaced type whenever one fits: then the key is in the namespace of
      the request, and otherwise in none. */
  lemma {:induction false} MatchRefPrefersNamespaced(types: seq<IssuerType>, ref: IssuerRef, namespace: string)
    requires NamespacedFirst(types)
    ensures MatchRef(types, ref, namespace).Some?
            <==> exists t :: t in types && t.gvk.group == ref.group && (ref.kind == "" || t.gvk.kind == ref.kind)
    ensures MatchRef(types, ref, namespace).Some? ==>
              exists t :: t in types && t.gvk.group == ref.group && (ref.kind == "" || t.gvk.kind == ref.kind)
                          && (t.namespaced || forall u :: u in types && u.namespaced ==>
                                                u.gvk.group != ref.group || (ref.kind != "" && u.gvk.kind != ref.kind))
                          && MatchRef(types, ref, namespace)
                             == Some(IssuerKey(t.gvk, NamespacedName(if t.namespaced then namespace else "", ref.name)))
  {
    if types != [] {
      if RefersTo(ref, types[0]) {
        if !types[0].namespaced {
          forall u | u in types ensures !u.namespaced {
            var j :| 0 <= j < |types| && types[j] == u;
          }
        }
      } else {
        MatchRefPrefersNamespaced(types[1..], ref, namespace);
        assert forall t :: t in types <==> t == types[0] || t in types[1..];
      }
    }
  }

  /** A CertificateSigningRequest is matched only by a cluster type, and exactly by signer names
      "identifier/name" of the first type with that identifier. */
  lemma {:induction false} MatchSignerIsClusterScoped(types: seq<IssuerType>, r: Request)
    requires r.SigningRequest?
    ensures MatchIssuerType(types, r).Some? ==>
              var k := MatchIssuerType(types, r).value;
              exists t :: t in types && !t.namespaced && k.gvk == t.gvk && k.name.namespace == ""
                          && r.signerName == t.identifier + "/" + k.name.name
                          && SlashFree(k.name.name)
    ensures forall i, name :: 0 <= i < |types| && SlashFree(types[i].identifier) && SlashFree(name)
              && (forall j :: 0 <= j < i ==> types[j].identifier != types[i].identifier)
              && r.signerName == types[i].identifier + "/" + name
              ==> MatchIssuerType(types, r)
                  == if types[i].namespaced then None else Some(IssuerKey(types[i].gvk, NamespacedName("", name)))
  {
    SplitRoundTrip("", "", r.signerName);
    var split := Split(r.signerName);
    if |split| == 2 && MatchSigner(types, split[0], split[1]).Some? {
      var t := MatchSignerFinds(types, split[0], split[1]);
    }
    forall i, name | 0 <= i < |types| && SlashFree(types[i].identifier) && SlashFree(name)
      && (forall j :: 0 <= j < i ==> types[j].identifier != types[i].identifier)
      && r.signerName == types[i].identifier + "/" + name
      ensures MatchIssuerType(types, r)
              == if types[i].namespaced then None else Some(IssuerKey(types[i].gvk, NamespacedName("", name)))
    {
      SplitRoundTrip(types[i].identifier, name, "");
      MatchSignerAt(types, i, name);
    }
  }

  lemma {:induction false} MatchSignerFinds(
    types: seq<IssuerType>, identifier: string, name: string) returns (t: IssuerType)
    requires MatchSigner(types, identifier, name).Some?
    ensures t in types && !t.namespaced && t.identifier == identifier
    ensures MatchSigner(types, identifier, name) == Some(IssuerKey(t.gvk, NamespacedName("", name)))
  {
    if types[0].identifier == identifier {
      t := types[0];
    } else {
      t := MatchSignerFinds(types[1..], identifier, name);
    }
  }

  lemma {:induction false} MatchSignerAt(types: seq<IssuerType>, i: nat, name: string)
    requires i < |types| && forall j :: 0 <= j < i ==> types[j].identifier != types[i].identifier
    ensures MatchSigner(types, types[i].identifier, name)
            == if types[i].namespaced then None else Some(IssuerKey(types[i].gvk, NamespacedName("", name)))
  {
    if i > 0 {
      assert types[0].identifier != types[i].identifier;
      assert forall j :: 0 <= j < i - 1 ==> types[1..][j] == types[j + 1];
      MatchSignerAt(types[1..], i - 1, name);
    }
  }
}
