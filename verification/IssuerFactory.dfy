/** How an issuer reference is resolved: issuer object, credentials, CA bundle, client. */
module Factory {
  import opened Base
  import opened Api

  datatype BundleRef = BundleRef(name: string, kind: string, key: string, keys: seq<string>)

  /** The specs of AdcsIssuer and ClusterAdcsIssuer have the same fields. */
  datatype IssuerSpec = IssuerSpec(url: string, credentials: string, caBundle: Bytes, caBundleRef: BundleRef,
                                   templateName: string)

  type Data = map<string, Bytes>

  /** What the API server holds; a Get fails exactly when the object is missing. */
  datatype Objects = Objects(
    secrets: map<Key, Data>, configMaps: map<Key, Data>,
    issuers: map<Key, IssuerSpec>, clusterIssuers: map<Key, IssuerSpec>)

  datatype Credentials = Credentials(username: Bytes, password: Bytes, realm: Bytes)

  datatype Resolved = Resolved(kerberos: bool, url: string, credentials: Credentials, caBundle: Bytes,
                               templateName: string)

  function LowerChar(c: char): char { if 'A' <= c <= 'Z' then (c as int + 32) as char else c }

  /** strings.ToLower on ASCII. */
  function Lower(s: string): string { seq(|s|, i requires 0 <= i < |s| => LowerChar(s[i])) }

  // ---------- the CA bundle ----------

  /** The keys read: the list, else the single key, else "ca.crt". */
  function KeysOf(ref: BundleRef): seq<string> {
    if ref.keys != [] then ref.keys else if ref.key != "" then [ref.key] else ["ca.crt"]
  }

  function Concat(data: Data, keys: seq<string>): (r: Option<Bytes>)
    ensures r.Some? <==> forall k | k in keys :: k in data
  {
    if keys == [] then Some([])
    else
      var front := Concat(data, keys[..|keys| - 1]);
      var last := keys[|keys| - 1];
      assert keys == keys[..|keys| - 1] + [last];
      if front.None? || last !in data then None else Some(front.value + data[last])
  }

  /** Where the value of the i-th key begins in the bundle. */
  function OffsetOf(data: Data, keys: seq<string>, i: nat): nat
    requires i <= |keys| && forall k | k in keys :: k in data
  {
    if i == 0 then 0 else OffsetOf(data, keys, i - 1) + |data[keys[i - 1]]|
  }

  /** The bundle is the values of all keys in the listed order: the i-th stands where the ones before it end. */
  lemma {:induction false} ConcatInOrder(data: Data, keys: seq<string>, i: nat)
    requires i < |keys| && Concat(data, keys).Some?
    ensures var bundle := Concat(data, keys).value;
            var from := OffsetOf(data, keys, i);
            && |bundle| == OffsetOf(data, keys, |keys|)
            && from + |data[keys[i]]| <= |bundle|
            && bundle[from..from + |data[keys[i]]|] == data[keys[i]]
    decreases |keys|
  {
    var n := |keys| - 1;
    var front := keys[..n];
    assert keys == front + [keys[n]];
    if front != [] { ConcatInOrder(data, front, if i < n then i else 0); }
    SameOffsets(data, front, keys, n);
    if i < n { SameOffsets(data, front, keys, i); }
  }

  lemma {:induction false} SameOffsets(data: Data, front: seq<string>, keys: seq<string>, i: nat)
    requires i <= |front| < |keys| && front == keys[..|front|]
    requires (forall k | k in keys :: k in data) && (forall k | k in front :: k in data)
    ensures OffsetOf(data, front, i) == OffsetOf(data, keys, i)
    decreases i
  {
    if i > 0 { SameOffsets(data, front, keys, i - 1); }
  }

  /** The value of the i-th key stands where the values before it end. */
  predicate PieceAt(data: Data, keys: seq<string>, bundle: Bytes, i: nat)
    requires i < |keys| && forall k | k in keys :: k in data
  {
    var from := OffsetOf(data, keys, i);
    from + |data[keys[i]]| <= |bundle| && bundle[from..from + |data[keys[i]]|] == data[keys[i]]
  }

  /** The bundle is made of the values of these keys, one after the other. */
  ghost predicate IsConcat(data: Data, keys: seq<string>, bundle: Bytes) {
    && (forall k | k in keys :: k in data)
    && |bundle| == OffsetOf(data, keys, |keys|)
    && forall i | 0 <= i < |keys| :: PieceAt(data, keys, bundle, i)
  }

  lemma ConcatIs(data: Data, keys: seq<string>)
    requires Concat(data, keys).Some?
    ensures IsConcat(data, keys, Concat(data, keys).value)
  {
    forall i | 0 <= i < |keys| ensures PieceAt(data, keys, Concat(data, keys).value, i) {
      ConcatInOrder(data, keys, i);
    }
    if keys != [] { ConcatInOrder(data, keys, 0); }
  }

  lemma {:induction false} OffsetsGrow(data: Data, keys: seq<string>, i: nat, j: nat)
    requires i <= j <= |keys| && forall k | k in keys :: k in data
    ensures OffsetOf(data, keys, i) <= OffsetOf(data, keys, j)
    decreases j
  {
    if i < j { OffsetsGrow(data, keys, i, j - 1); }
  }

  lemma SameHead(a: Bytes, b: Bytes, from: nat, end: nat)
    requires from <= end <= |a| && end <= |b| && a[..from] == b[..from] && a[from..end] == b[from..end]
    ensures a[..end] == b[..end]
  {
    assert a[..end] == a[..from] + a[from..end] && b[..end] == b[..from] + b[from..end];
  }

  /** There is only one such bundle. */
  lemma {:induction false} OneConcat(data: Data, keys: seq<string>, n: nat, a: Bytes, b: Bytes)
    requires IsConcat(data, keys, a) && IsConcat(data, keys, b) && n <= |keys|
    ensures OffsetOf(data, keys, n) <= |a| == |b|
    ensures a[..OffsetOf(data, keys, n)] == b[..OffsetOf(data, keys, n)]
    decreases n
  {
    OffsetsGrow(data, keys, n, |keys|);
    if n > 0 {
      OneConcat(data, keys, n - 1, a, b);
      assert PieceAt(data, keys, a, n - 1) && PieceAt(data, keys, b, n - 1);
      SameHead(a, b, OffsetOf(data, keys, n - 1), OffsetOf(data, keys, n));
    }
  }

  /** The keys that a reference asks for: its list, else its single key, else "ca.crt". */
  predicate KeysAre(ref: BundleRef, keys: seq<string>) {
    && (ref.keys != [] ==> keys == ref.keys)
    && (ref.keys == [] && ref.key != "" ==> keys == [ref.key])
    && (ref.keys == [] && ref.key == "" ==> keys == ["ca.crt"])
  }

  /** The data of the object a reference names: a Secret, unless the kind says ConfigMap. */
  predicate IsSource(o: Objects, ref: BundleRef, namespace: string, data: Data) {
    var key := Key(namespace, ref.name);
    || ((ref.kind == "" || Lower(ref.kind) == "secret") && key in o.secrets && data == o.secrets[key])
    || (Lower(ref.kind) == "configmap" && key in o.configMaps && data == o.configMaps[key])
  }

  /** The bundle that a reference names. */
  ghost predicate IsBundle(o: Objects, ref: BundleRef, namespace: string, bundle: Bytes) {
    exists data, keys :: IsSource(o, ref, namespace, data) && KeysAre(ref, keys) && IsConcat(data, keys, bundle)
  }

  lemma OneSource(o: Objects, ref: BundleRef, namespace: string, a: Data, b: Data)
    requires IsSource(o, ref, namespace, a) && IsSource(o, ref, namespace, b)
    ensures a == b
  {
    assert |"configmap"| != |"secret"|;
    assert |Lower(ref.kind)| == |ref.kind|;
  }

  lemma SameConcat(data: Data, keys: seq<string>, a: Bytes, b: Bytes)
    requires IsConcat(data, keys, a) && IsConcat(data, keys, b)
    ensures a == b
  {
    OneConcat(data, keys, |keys|, a, b);
    assert a[..|a|] == a && b[..|b|] == b;
  }

  lemma OneKeys(ref: BundleRef, a: seq<string>, b: seq<string>)
    requires KeysAre(ref, a) && KeysAre(ref, b)
    ensures a == b
  {}

  lemma OneBundle(o: Objects, ref: BundleRef, namespace: string, a: Bytes, b: Bytes)
    requires IsBundle(o, ref, namespace, a) && IsBundle(o, ref, namespace, b)
    ensures a == b
  {
    var data, keys :| IsSource(o, ref, namespace, data) && KeysAre(ref, keys) && IsConcat(data, keys, a);
    var data', keys' :| IsSource(o, ref, namespace, data') && KeysAre(ref, keys') && IsConcat(data', keys', b);
    OneSource(o, ref, namespace, data, data');
    OneKeys(ref, keys, keys');
    SameConcat(data, keys, a, b);
  }

  /** The bundle found is the one named, and none is found only if none is. */
  lemma BundleMeaning(o: Objects, ref: BundleRef, namespace: string)
    ensures match BundleOf(o, ref, namespace)
            case Some(bundle) => IsBundle(o, ref, namespace, bundle)
            case None => forall bundle :: !IsBundle(o, ref, namespace, bundle)
  {
    LowerKinds();
    var bundle := BundleOf(o, ref, namespace);
    if bundle.Some? {
      var key := Key(namespace, ref.name);
      var secret := Lower(if ref.kind == "" then "Secret" else ref.kind) == "secret";
      var data := if secret then o.secrets[key] else o.configMaps[key];
      ConcatIs(data, KeysOf(ref));
      assert IsSource(o, ref, namespace, data) && KeysAre(ref, KeysOf(ref));
    } else {
      forall data, keys, b | IsSource(o, ref, namespace, data) && KeysAre(ref, keys) ensures !IsConcat(data, keys, b) {
        assert keys == KeysOf(ref);
        assert Concat(data, keys).None?;
      }
    }
  }

  function BundleOf(o: Objects, ref: BundleRef, namespace: string): Option<Bytes> {
    var kind := Lower(if ref.kind == "" then "Secret" else ref.kind);
    var key := Key(namespace, ref.name);
    if kind == "secret" then if key in o.secrets then Concat(o.secrets[key], KeysOf(ref)) else None
    else if kind == "configmap" then if key in o.configMaps then Concat(o.configMaps[key], KeysOf(ref)) else None
    else None
  }

  /** A Secret and a ConfigMap with the same data give the same bundle. */
  lemma SecretAndConfigMapAgree(o: Objects, ref: BundleRef, namespace: string)
    requires Key(namespace, ref.name) in o.secrets && Key(namespace, ref.name) in o.configMaps
    requires o.secrets[Key(namespace, ref.name)] == o.configMaps[Key(namespace, ref.name)]
    requires Lower(ref.kind) == "secret"
    ensures BundleOf(o, ref, namespace) == BundleOf(o, ref.(kind := "ConfigMap"), namespace)
    ensures BundleOf(o, ref, namespace) == BundleOf(o, ref.(kind := ""), namespace)
  {
    LowerKinds();
    assert ref.kind != "";
  }

  lemma LowerKinds()
    ensures Lower("ConfigMap") == "configmap" && Lower("Secret") == "secret" && "configmap" != "secret"
  {
    assert |"configmap"| != |"secret"|;
  }

  /** The bundle is there exactly when the object is and holds every key. */
  lemma BundleExists(o: Objects, ref: BundleRef, namespace: string)
    ensures var kind := Lower(if ref.kind == "" then "Secret" else ref.kind);
            var key := Key(namespace, ref.name);
            BundleOf(o, ref, namespace).Some? <==>
              || (kind == "secret" && key in o.secrets && forall k | k in KeysOf(ref) :: k in o.secrets[key])
              || (kind == "configmap" && key in o.configMaps && forall k | k in KeysOf(ref) :: k in o.configMaps[key])
  {
    LowerKinds();
  }

  /** The inline bundle stands in for a reference that is absent, unreadable or empty. */
  function CertsOf(o: Objects, spec: IssuerSpec, namespace: string): Bytes {
    if spec.caBundleRef.name == "" then spec.caBundle
    else
      var bundle := BundleOf(o, spec.caBundleRef, namespace);
      if bundle.Some? && bundle.value != [] then bundle.value else spec.caBundle
  }

  // ---------- credentials ----------

  /** The keys that a secret with credentials must have. */
  function NeededKeys(kerberos: bool): set<string> {
    {"username", "password"} + if kerberos then {"realm"} else {}
  }

  function CredentialsOf(o: Objects, kerberos: bool, name: string, namespace: string): (r: Option<Credentials>)
    ensures r.Some? <==>
            Key(namespace, name) in o.secrets && NeededKeys(kerberos) <= o.secrets[Key(namespace, name)].Keys
    ensures r.Some? ==>
              var data := o.secrets[Key(namespace, name)];
              && r.value.username == data["username"] && r.value.password == data["password"]
              && r.value.realm == if "realm" in data then data["realm"] else []
  {
    var key := Key(namespace, name);
    if key !in o.secrets then None
    else
      var data := o.secrets[key];
      if "username" !in data || "password" !in data || (kerberos && "realm" !in data) then None
      else Some(Credentials(data["username"], data["password"], if "realm" in data then data["realm"] else []))
  }

  /** What serves Kerberos serves NTLM alike; what serves NTLM only lacks nothing but a realm. */
  lemma ModesAgree(o: Objects, name: string, namespace: string)
    ensures var ntlm, kerberos := CredentialsOf(o, false, name, namespace), CredentialsOf(o, true, name, namespace);
            && (kerberos.Some? ==> ntlm == kerberos)
            && (ntlm.Some? && kerberos.None? <==> ntlm.Some? && "realm" !in o.secrets[Key(namespace, name)])
  {}

  // ---------- the issuer ----------

  datatype Environment = Environment(kerberos: bool, clusterNamespace: string, templateName: string,
                                     isPem: Bytes -> bool, login: Credentials -> bool)

  /** An issuer spec with everything it refers to, read from one namespace. */
  function Resolve(o: Objects, env: Environment, spec: IssuerSpec, namespace: string): Option<Resolved> {
    var credentials := CredentialsOf(o, env.kerberos, spec.credentials, namespace);
    var certs := CertsOf(o, spec, namespace);
    if credentials.None? || certs == [] || !env.isPem(certs) then None
    else if env.kerberos && !env.login(credentials.value) then None
    else Some(Resolved(env.kerberos, spec.url, credentials.value, certs,
                       if spec.templateName != "" then spec.templateName else env.templateName))
  }

  /** These are the credentials in the secret of this name. */
  predicate AreCredentials(o: Objects, kerberos: bool, name: string, namespace: string, c: Credentials) {
    var key := Key(namespace, name);
    && key in o.secrets
    && var data := o.secrets[key];
       && "username" in data && "password" in data && (kerberos ==> "realm" in data)
       && c.username == data["username"] && c.password == data["password"]
       && c.realm == if "realm" in data then data["realm"] else []
  }

  /** The bundle that is named, if there is one with anything in it, and else the inline one. */
  ghost predicate AreCerts(o: Objects, spec: IssuerSpec, namespace: string, certs: Bytes) {
    if spec.caBundleRef.name != "" && exists b :: b != [] && IsBundle(o, spec.caBundleRef, namespace, b)
    then IsBundle(o, spec.caBundleRef, namespace, certs)
    else certs == spec.caBundle
  }

  /** What an issuer is resolved to: its own url, its secret, its bundle, and its template or the default one. */
  ghost predicate Serves(o: Objects, env: Environment, spec: IssuerSpec, namespace: string, r: Resolved) {
    && r.kerberos == env.kerberos
    && r.url == spec.url
    && AreCredentials(o, env.kerberos, spec.credentials, namespace, r.credentials)
    && AreCerts(o, spec, namespace, r.caBundle) && r.caBundle != [] && env.isPem(r.caBundle)
    && (env.kerberos ==> env.login(r.credentials))
    && r.templateName == if spec.templateName != "" then spec.templateName else env.templateName
  }

  /** The reference names this issuer, which reads its secrets and config maps in the namespace `at`. */
  predicate Names(o: Objects, env: Environment, ref: IssuerRef, namespace: string, spec: IssuerSpec, at: string) {
    || (&& Lower(ref.kind) == "adcsissuer" && Key(namespace, ref.name) in o.issuers
        && spec == o.issuers[Key(namespace, ref.name)] && at == namespace)
    || (&& Lower(ref.kind) == "clusteradcsissuer" && Key("", ref.name) in o.clusterIssuers
        && spec == o.clusterIssuers[Key("", ref.name)] && at == env.clusterNamespace)
  }

  /** What the reference is resolved to. */
  ghost predicate ResolvesTo(o: Objects, env: Environment, ref: IssuerRef, namespace: string, r: Resolved) {
    exists spec, at :: Names(o, env, ref, namespace, spec, at) && Serves(o, env, spec, at, r)
  }

  lemma CertsMeaning(o: Objects, spec: IssuerSpec, namespace: string, certs: Bytes)
    ensures AreCerts(o, spec, namespace, certs) <==> certs == CertsOf(o, spec, namespace)
  {
    BundleMeaning(o, spec.caBundleRef, namespace);
    var bundle := BundleOf(o, spec.caBundleRef, namespace);
    if bundle.Some? {
      forall b | IsBundle(o, spec.caBundleRef, namespace, b) ensures b == bundle.value {
        OneBundle(o, spec.caBundleRef, namespace, b, bundle.value);
      }
    }
  }

  lemma ResolveMeaning(o: Objects, env: Environment, spec: IssuerSpec, namespace: string, r: Resolved)
    ensures Serves(o, env, spec, namespace, r) <==> Resolve(o, env, spec, namespace) == Some(r)
  {
    CertsMeaning(o, spec, namespace, r.caBundle);
  }

  /** The issuer found is what the reference resolves to, and nothing else is. */
  lemma IssuerMeaning(o: Objects, env: Environment, ref: IssuerRef, namespace: string, r: Resolved)
    ensures ResolvesTo(o, env, ref, namespace, r) <==> IssuerFor(o, env, ref, namespace) == Some(r)
  {
    assert |"adcsissuer"| != |"clusteradcsissuer"|;
    forall spec, at | Names(o, env, ref, namespace, spec, at)
      ensures Serves(o, env, spec, at, r) <==> IssuerFor(o, env, ref, namespace) == Some(r)
    {
      ResolveMeaning(o, env, spec, at, r);
    }
    if IssuerFor(o, env, ref, namespace) == Some(r) {
      var key, clusterKey := Key(namespace, ref.name), Key("", ref.name);
      if Lower(ref.kind) == "adcsissuer" {
        assert Names(o, env, ref, namespace, o.issuers[key], namespace);
      } else {
        assert Names(o, env, ref, namespace, o.clusterIssuers[clusterKey], env.clusterNamespace);
      }
    }
  }

  function IssuerFor(o: Objects, env: Environment, ref: IssuerRef, namespace: string): Option<Resolved> {
    var kind := Lower(ref.kind);
    var key, clusterKey := Key(namespace, ref.name), Key("", ref.name);
    if kind == "adcsissuer" then
      if key in o.issuers then Resolve(o, env, o.issuers[key], namespace) else None
    else if kind == "clusteradcsissuer" then
      if clusterKey in o.clusterIssuers then Resolve(o, env, o.clusterIssuers[clusterKey], env.clusterNamespace)
      else None
    else None
  }

  /** A resolved issuer has a CA bundle that parses: the referenced one unless that is empty, else the inline one. */
  lemma ResolvedBundle(o: Objects, env: Environment, spec: IssuerSpec, namespace: string)
    requires Resolve(o, env, spec, namespace).Some?
    ensures var certs := Resolve(o, env, spec, namespace).value.caBundle;
            var bundle := BundleOf(o, spec.caBundleRef, namespace);
            && certs != [] && env.isPem(certs)
            && (certs == spec.caBundle || (spec.caBundleRef.name != "" && bundle == Some(certs)))
            && (spec.caBundleRef.name != "" && bundle.Some? && bundle.value != [] ==> certs == bundle.value)
  {}

  /** The two kinds of issuer differ only in the namespace that secrets and config maps are read from. */
  lemma KindsAgree(o: Objects, env: Environment, name: string, group: string, namespace: string)
    requires Key(namespace, name) in o.issuers && Key("", name) in o.clusterIssuers
    requires o.issuers[Key(namespace, name)] == o.clusterIssuers[Key("", name)]
    ensures IssuerFor(o, env.(clusterNamespace := namespace), IssuerRef(name, "ClusterAdcsIssuer", group), namespace)
            == IssuerFor(o, env, IssuerRef(name, "AdcsIssuer", group), namespace)
  {
    var a, b := Lower("AdcsIssuer"), Lower("ClusterAdcsIssuer");
    assert a == "adcsissuer" && b == "clusteradcsissuer";
    assert |b| == 17 && |a| == 10;
  }

  class IssuerFactory {
    const objects: Objects
    const env: Environment

    constructor (objects: Objects, env: Environment)
      ensures this.objects == objects && this.env == env
    {
      this.objects := objects;
      this.env := env;
    }

    method GetCaBundle(ref: BundleRef, namespace: string) returns (out: Option<Bytes>)
      ensures out == BundleOf(objects, ref, namespace)
      ensures match out
              case Some(bundle) => IsBundle(objects, ref, namespace, bundle)
              case None => forall bundle :: !IsBundle(objects, ref, namespace, bundle)
    {
      BundleMeaning(objects, ref, namespace);
      var kind := ref.kind;
      if kind == "" {
        kind := "Secret";
      }
      var key := ref.key;
      var keys := ref.keys;
      if |keys| == 0 && key == "" {
        key := "ca.crt";
      }
      if |keys| == 0 {
        keys := [key];
      }
      var objectKey := Key(namespace, ref.name);
      if Lower(kind) == "secret" {
        if objectKey !in objects.secrets {
          return None;
        }
        out := Append(objects.secrets[objectKey], keys);
      } else if Lower(kind) == "configmap" {
        if objectKey !in objects.configMaps {
          return None;
        }
        out := Append(objects.configMaps[objectKey], keys);
      } else {
        return None;
      }
    }

    method Append(data: Data, keys: seq<string>) returns (out: Option<Bytes>)
      ensures out == Concat(data, keys)
    {
      var caBundle := [];
      for i := 0 to |keys|
        invariant Concat(data, keys[..i]) == Some(caBundle)
      {
        assert keys[..i + 1][..i] == keys[..i];
        if keys[i] !in data {
          assert keys[i] in keys;
          return None;
        }
        caBundle := caBundle + data[keys[i]];
      }
      assert keys[..|keys|] == keys;
      return Some(caBundle);
    }

    method GetUserPassword(secretName: string, namespace: string) returns (out: Option<Credentials>)
      ensures out == CredentialsOf(objects, env.kerberos, secretName, namespace)
      ensures out.Some? <==>
              && Key(namespace, secretName) in objects.secrets
              && NeededKeys(env.kerberos) <= objects.secrets[Key(namespace, secretName)].Keys
      ensures out.Some? ==>
                var data := objects.secrets[Key(namespace, secretName)];
                && out.value.username == data["username"] && out.value.password == data["password"]
                && out.value.realm == if "realm" in data then data["realm"] else []
    {
      var key := Key(namespace, secretName);
      if key !in objects.secrets {
        return None;
      }
      var data := objects.secrets[key];
      if "username" !in data {
        return None;
      }
      if "password" !in data {
        return None;
      }
      if "realm" !in data && env.kerberos {
        return None;
      }
      return Some(Credentials(data["username"], data["password"], if "realm" in data then data["realm"] else []));
    }

    method GetAdcsIssuer(key: Key) returns (out: Option<Resolved>)
      ensures out == if key in objects.issuers then Resolve(objects, env, objects.issuers[key], key.namespace) else None
      ensures forall r :: out == Some(r) <==>
                key in objects.issuers && Serves(objects, env, objects.issuers[key], key.namespace, r)
    {
      forall r, spec
        ensures Serves(objects, env, spec, key.namespace, r) <==> Resolve(objects, env, spec, key.namespace) == Some(r)
      {
        ResolveMeaning(objects, env, spec, key.namespace, r);
      }
      if key !in objects.issuers {
        return None;
      }
      var issuer := objects.issuers[key];
      var credentials := GetUserPassword(issuer.credentials, key.namespace);
      if credentials.None? {
        return None;
      }
      var certs := issuer.caBundle;
      if issuer.caBundleRef.name != "" {
        var refCerts := GetCaBundle(issuer.caBundleRef, key.namespace);
        if refCerts.Some? {
          certs := refCerts.value;
        }
        if |certs| == 0 {
          certs := issuer.caBundle;
        }
      }
      if |certs| == 0 {
        return None;
      }
      if !env.isPem(certs) {
        return None;
      }
      if env.kerberos && !env.login(credentials.value) {
        return None;
      }
      var templateName := env.templateName;
      if issuer.templateName != "" {
        templateName := issuer.templateName;
      }
      return Some(Resolved(env.kerberos, issuer.url, credentials.value, certs, templateName));
    }

    method GetClusterAdcsIssuer(key: Key) returns (out: Option<Resolved>)
      ensures var clusterKey := Key("", key.name);
              out == if clusterKey in objects.clusterIssuers
                     then Resolve(objects, env, objects.clusterIssuers[clusterKey], env.clusterNamespace) else None
      ensures forall r :: out == Some(r) <==>
                && Key("", key.name) in objects.clusterIssuers
                && Serves(objects, env, objects.clusterIssuers[Key("", key.name)], env.clusterNamespace, r)
    {
      forall r, spec
        ensures var at := env.clusterNamespace;
                Serves(objects, env, spec, at, r) <==> Resolve(objects, env, spec, at) == Some(r)
      {
        ResolveMeaning(objects, env, spec, env.clusterNamespace, r);
      }
      var clusterKey := key.(namespace := "");
      if clusterKey !in objects.clusterIssuers {
        return None;
      }
      var issuer := objects.clusterIssuers[clusterKey];
      var credentials := GetUserPassword(issuer.credentials, env.clusterNamespace);
      if credentials.None? {
        return None;
      }
      var certs := issuer.caBundle;
      if issuer.caBundleRef.name != "" {
        var refCerts := GetCaBundle(issuer.caBundleRef, env.clusterNamespace);
        if refCerts.Some? {
          certs := refCerts.value;
        }
        if |certs| == 0 {
          certs := issuer.caBundle;
        }
      }
      if |certs| == 0 {
        return None;
      }
      if !env.isPem(certs) {
        return None;
      }
      if env.kerberos && !env.login(credentials.value) {
        return None;
      }
      var templateName := env.templateName;
      if issuer.templateName != "" {
        templateName := issuer.templateName;
      }
      return Some(Resolved(env.kerberos, issuer.url, credentials.value, certs, templateName));
    }

    method GetIssuer(ref: IssuerRef, namespace: string) returns (out: Option<Resolved>)
      ensures out == IssuerFor(objects, env, ref, namespace)
      ensures forall r :: out == Some(r) <==> ResolvesTo(objects, env, ref, namespace, r)
    {
      forall r
        ensures ResolvesTo(objects, env, ref, namespace, r) <==> IssuerFor(objects, env, ref, namespace) == Some(r)
      {
        IssuerMeaning(objects, env, ref, namespace, r);
      }
      var key := Key(namespace, ref.name);
      if Lower(ref.kind) == "adcsissuer" {
        out := GetAdcsIssuer(key);
      } else if Lower(ref.kind) == "clusteradcsissuer" {
        out := GetClusterAdcsIssuer(key);
      } else {
        return None;
      }
    }
  }
}
