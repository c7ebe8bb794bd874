/**
 The generated deep copies. A struct is a value; its slices are references, so a
 plain assignment shares them. Every copy owns its slices alone, which is what
 lets a reconciler rewrite what it read.
 */
module DeepCopy {
  import Api

  datatype CABundleReference = CABundleReference(name: string, kind: string, key: string, keys: array?<string>)

  /** AdcsIssuerSpec and ClusterAdcsIssuerSpec. */
  datatype IssuerSpec = IssuerSpec(url: string, credentials: string,
                                   caBundle: array?<char>, caBundleRef: CABundleReference,
                                   statusCheckInterval: string, retryInterval: string, templateName: string)

  datatype Issuer = Issuer(name: Api.Key, spec: IssuerSpec)

  datatype IssuerList = IssuerList(resourceVersion: string, items: array?<Issuer>)

  datatype RequestSpec = RequestSpec(csr: array?<char>, issuerRef: Api.IssuerRef)

  datatype Request = Request(name: Api.Key, spec: RequestSpec, status: Api.ArStatus)

  datatype RequestList = RequestList(resourceVersion: string, items: array?<Request>)

  // ---------- equal in value ----------

  ghost predicate SameSlice<T>(a: array?<T>, b: array?<T>)
    reads a, b
  {
    if a == null then b == null else b != null && a[..] == b[..]
  }

  ghost predicate SameRef(a: CABundleReference, b: CABundleReference)
    reads a.keys, b.keys
  {
    b == a.(keys := b.keys) && SameSlice(a.keys, b.keys)
  }

  ghost predicate SameSpec(a: IssuerSpec, b: IssuerSpec)
    reads a.caBundle, b.caBundle, a.caBundleRef.keys, b.caBundleRef.keys
  {
    && b == a.(caBundle := b.caBundle, caBundleRef := b.caBundleRef)
    && SameSlice(a.caBundle, b.caBundle)
    && SameRef(a.caBundleRef, b.caBundleRef)
  }

  ghost predicate SameRequestSpec(a: RequestSpec, b: RequestSpec)
    reads a.csr, b.csr
  {
    b == a.(csr := b.csr) && SameSlice(a.csr, b.csr)
  }

  // ---------- the copies ----------

  method CopySlice<T(0)>(a: array?<T>) returns (b: array?<T>)
    ensures SameSlice(a, b) && (b == null || fresh(b))
  {
    b := null;
    if a != null {
      b := new T[a.Length];
      for i := 0 to a.Length
        invariant b != null && b.Length == a.Length && fresh(b)
        invariant a[..i] == b[..i]
      {
        b[i] := a[i];
      }
      assert a[..a.Length] == a[..] && b[..b.Length] == b[..];
    }
  }

  method CopyReference(r: CABundleReference) returns (out: CABundleReference)
    ensures SameRef(r, out) && (out.keys == null || fresh(out.keys))
  {
    out := r;
    if r.keys != null {
      var keys := CopySlice(r.keys);
      out := out.(keys := keys);
    }
  }

  method CopyIssuerSpec(s: IssuerSpec) returns (out: IssuerSpec)
    ensures SameSpec(s, out)
    ensures out.caBundle == null || fresh(out.caBundle)
    ensures out.caBundleRef.keys == null || fresh(out.caBundleRef.keys)
  {
    out := s;
    if s.caBundle != null {
      var caBundle := CopySlice(s.caBundle);
      out := out.(caBundle := caBundle);
    }
    var ref := CopyReference(s.caBundleRef);
    out := out.(caBundleRef := ref);
  }

  method CopyIssuer(a: Issuer) returns (out: Issuer)
    ensures out.name == a.name && SameSpec(a.spec, out.spec)
    ensures out.spec.caBundle == null || fresh(out.spec.caBundle)
    ensures out.spec.caBundleRef.keys == null || fresh(out.spec.caBundleRef.keys)
  {
    out := a;
    var spec := CopyIssuerSpec(a.spec);
    out := out.(spec := spec);
  }

  /** No two items of the list share a slice. */
  ghost predicate Apart(items: seq<Issuer>) {
    forall i, j | 0 <= i < j < |items| ::
      && (items[i].spec.caBundle != null ==> items[i].spec.caBundle != items[j].spec.caBundle)
      && (items[i].spec.caBundleRef.keys != null ==> items[i].spec.caBundleRef.keys != items[j].spec.caBundleRef.keys)
  }

  method CopyIssuerList(list: IssuerList) returns (out: IssuerList)
    ensures out.resourceVersion == list.resourceVersion
    ensures (out.items == null || fresh(out.items)) && (out.items == null <==> list.items == null)
    ensures list.items != null ==>
              && out.items.Length == list.items.Length
              && Apart(out.items[..])
              && forall i | 0 <= i < list.items.Length ::
                   && out.items[i].name == list.items[i].name
                   && SameSpec(list.items[i].spec, out.items[i].spec)
                   && (out.items[i].spec.caBundle == null || fresh(out.items[i].spec.caBundle))
                   && (out.items[i].spec.caBundleRef.keys == null || fresh(out.items[i].spec.caBundleRef.keys))
  {
    out := list.(items := null);
    if list.items != null {
      var from := list.items;
      var items := new Issuer[from.Length](i requires 0 <= i < from.Length reads from => from[i]);
      for i := 0 to from.Length
        invariant fresh(items)
        invariant Apart(items[..i])
        invariant forall j | 0 <= j < i ::
                    && items[j].name == from[j].name
                    && SameSpec(from[j].spec, items[j].spec)
                    && (items[j].spec.caBundle == null || fresh(items[j].spec.caBundle))
                    && (items[j].spec.caBundleRef.keys == null || fresh(items[j].spec.caBundleRef.keys))
      {
        var item := CopyIssuer(from[i]);
        items[i] := item;
        assert items[..i + 1] == items[..i] + [item];
      }
      assert items[..from.Length] == items[..];
      out := out.(items := items);
    }
  }

  method CopyRequestSpec(s: RequestSpec) returns (out: RequestSpec)
    ensures SameRequestSpec(s, out) && (out.csr == null || fresh(out.csr))
  {
    out := s;
    if s.csr != null {
      var csr := CopySlice(s.csr);
      out := out.(csr := csr);
    }
  }

  method CopyRequest(a: Request) returns (out: Request)
    ensures out == a.(spec := out.spec) && SameRequestSpec(a.spec, out.spec)
    ensures out.spec.csr == null || fresh(out.spec.csr)
  {
    out := a;
    var spec := CopyRequestSpec(a.spec);
    out := out.(spec := spec);
  }

  ghost predicate RequestsApart(items: seq<Request>) {
    forall i, j | 0 <= i < j < |items| :: items[i].spec.csr != null ==> items[i].spec.csr != items[j].spec.csr
  }

  method CopyRequestList(list: RequestList) returns (out: RequestList)
    ensures out.resourceVersion == list.resourceVersion
    ensures (out.items == null || fresh(out.items)) && (out.items == null <==> list.items == null)
    ensures list.items != null ==>
              && out.items.Length == list.items.Length
              && RequestsApart(out.items[..])
              && forall i | 0 <= i < list.items.Length ::
                   && out.items[i] == list.items[i].(spec := out.items[i].spec)
                   && SameRequestSpec(list.items[i].spec, out.items[i].spec)
                   && (out.items[i].spec.csr == null || fresh(out.items[i].spec.csr))
  {
    out := list.(items := null);
    if list.items != null {
      var from := list.items;
      var items := new Request[from.Length](i requires 0 <= i < from.Length reads from => from[i]);
      for i := 0 to from.Length
        invariant fresh(items)
        invariant RequestsApart(items[..i])
        invariant forall j | 0 <= j < i ::
                    && items[j] == from[j].(spec := items[j].spec)
                    && SameRequestSpec(from[j].spec, items[j].spec)
                    && (items[j].spec.csr == null || fresh(items[j].spec.csr))
      {
        var item := CopyRequest(from[i]);
        items[i] := item;
        assert items[..i + 1] == items[..i] + [item];
      }
      assert items[..from.Length] == items[..];
      out := out.(items := items);
    }
  }

  /**
   A write through one item of a copied list: the frame says that nothing the
   caller had is touched, and no other item of the copy is either.
   */
  method WriteToCopy(list: IssuerList, k: nat, at: nat, c: char) returns (out: IssuerList)
    requires list.items != null && k < list.items.Length
    requires list.items[k].spec.caBundle != null && at < list.items[k].spec.caBundle.Length
    ensures out.items != null && fresh(out.items) && out.items.Length == list.items.Length
    ensures out.items[k].spec.caBundle != null && at < out.items[k].spec.caBundle.Length
    ensures out.items[k].spec.caBundle[..] == list.items[k].spec.caBundle[..][at := c]
    ensures forall i | 0 <= i < list.items.Length && i != k :: SameSpec(list.items[i].spec, out.items[i].spec)
  {
    out := CopyIssuerList(list);
    assert list.items[k] == list.items[..][k] && SameSpec(list.items[k].spec, out.items[k].spec);
    var bundle := out.items[k].spec.caBundle;
    assert bundle != null && bundle.Length == |bundle[..]| == |list.items[k].spec.caBundle[..]|;
    assert forall i | 0 <= i < list.items.Length && i != k :: out.items[..][i].spec.caBundle != bundle;
    bundle[at] := c;
  }

  /** The same for a write to the keys of a bundle reference. */
  method WriteKeyToCopy(list: IssuerList, k: nat, at: nat, key: string) returns (out: IssuerList)
    requires list.items != null && k < list.items.Length
    requires list.items[k].spec.caBundleRef.keys != null && at < list.items[k].spec.caBundleRef.keys.Length
    ensures out.items != null && fresh(out.items) && out.items.Length == list.items.Length
    ensures out.items[k].spec.caBundleRef.keys != null && at < out.items[k].spec.caBundleRef.keys.Length
    ensures out.items[k].spec.caBundleRef.keys[..] == list.items[k].spec.caBundleRef.keys[..][at := key]
    ensures forall i | 0 <= i < list.items.Length && i != k :: SameSpec(list.items[i].spec, out.items[i].spec)
  {
    out := CopyIssuerList(list);
    assert list.items[k] == list.items[..][k] && SameSpec(list.items[k].spec, out.items[k].spec);
    var keys := out.items[k].spec.caBundleRef.keys;
    assert keys != null && keys.Length == |keys[..]| == |list.items[k].spec.caBundleRef.keys[..]|;
    assert forall i | 0 <= i < list.items.Length && i != k :: out.items[..][i].spec.caBundleRef.keys != keys;
    keys[at] := key;
  }

  /** The same for a write to the CSR of a copied request. */
  method WriteToRequestCopy(list: RequestList, k: nat, at: nat, c: char) returns (out: RequestList)
    requires list.items != null && k < list.items.Length
    requires list.items[k].spec.csr != null && at < list.items[k].spec.csr.Length
    ensures out.items != null && fresh(out.items) && out.items.Length == list.items.Length
    ensures out.items[k].spec.csr != null && at < out.items[k].spec.csr.Length
    ensures out.items[k].spec.csr[..] == list.items[k].spec.csr[..][at := c]
    ensures forall i | 0 <= i < list.items.Length && i != k ::
              SameRequestSpec(list.items[i].spec, out.items[i].spec) && out.items[i].status == list.items[i].status
  {
    out := CopyRequestList(list);
    assert list.items[k] == list.items[..][k] && SameRequestSpec(list.items[k].spec, out.items[k].spec);
    var csr := out.items[k].spec.csr;
    assert csr != null && csr.Length == |csr[..]| == |list.items[k].spec.csr[..]|;
    assert forall i | 0 <= i < list.items.Length && i != k :: out.items[..][i].spec.csr != csr;
    csr[at] := c;
  }
}
