/** The registry lookup service other controllers use: resolve a hierarchical
    name to its resolved register map or strategy, and resolve a register kind to
    the endpoint of the backend service serving it. */
module Registry {
  import opened Wrappers
  import opened Registers
  import opened Text
  import Collections
  import DeploymentApi
  import OrganizationApi
  import DeploymentReconciler

  /** The namespace the backend service pods run in. */
  const NddNamespace := "ndd-system"

  const Ipam := "ipam"
  const As := "as"
  const Ni := "ni"
  const Vlan := "vlan"
  const Esi := "esi"
  const Rt := "rt"

  /** The register kinds the source declares. */
  const DeclaredKinds := {Ipam, As, Ni, Vlan, Esi, Rt}

  /** `RegisterKind.String`: the declared kinds name themselves except Esi, which
      names the "epg" register; any other kind is "unknown". */
  function KindString(kind: string): (s: string)
    ensures kind in DeclaredKinds - {Esi} ==> s == kind
    ensures kind == Esi ==> s == "epg"
    ensures kind !in DeclaredKinds ==> s == "unknown"
  {
    if kind == Ipam then "ipam"
    else if kind == As then "as"
    else if kind == Ni then "ni"
    else if kind == Vlan then "vlan"
    else if kind == Esi then "epg"
    else if kind == Rt then "rt"
    else "unknown"
  }

  /** The six declared kinds have six distinct names, none of them "unknown". */
  lemma KindStringsDistinct(a: string, b: string)
    requires a in DeclaredKinds && b in DeclaredKinds && a != b
    ensures KindString(a) != KindString(b)
    ensures KindString(a) != "unknown"
  {
  }

  /** The registers every resolved register map must bind, checked in this order. */
  const CriticalRegisters := [KindString(Ipam), KindString(As), KindString(Ni)]

  /** Key of an object in the store. */
  datatype NamespacedName = NamespacedName(namespace: string, name: string)

  /** A store failure: the key is absent, or the store could not be reached. */
  datatype StoreError = NotFound(key: NamespacedName) | Unavailable(message: string)

  /** The part of the resource store the registry reads: resources by key, pod
      names by namespace in list order, and an outage that fails every call. */
  datatype Store = Store(
    deployments: map<NamespacedName, DeploymentApi.Deployment>,
    organizations: map<NamespacedName, OrganizationApi.Organization>,
    pods: map<string, seq<string>>,
    outage: Option<string>)

  function GetDeployment(store: Store, key: NamespacedName): Result<DeploymentApi.Deployment, StoreError> {
    if store.outage.Some? then Err(Unavailable(store.outage.value))
    else if key in store.deployments then Ok(store.deployments[key])
    else Err(NotFound(key))
  }

  function GetOrganization(store: Store, key: NamespacedName): Result<OrganizationApi.Organization, StoreError> {
    if store.outage.Some? then Err(Unavailable(store.outage.value))
    else if key in store.organizations then Ok(store.organizations[key])
    else Err(NotFound(key))
  }

  function ListPods(store: Store, namespace: string): Result<seq<string>, StoreError> {
    if store.outage.Some? then Err(Unavailable(store.outage.value))
    else if namespace in store.pods then Ok(store.pods[namespace])
    else Ok([])
  }

  /** The kind of resource a decoded hierarchical name addresses. */
  datatype OdaKind = OdaDeployment | OdaOther(kind: string)

  datatype RegistryError =
    | StoreFailure(cause: StoreError)
    | CriticalRegisterMissing(kind: string)
    | UnknownRegister(name: string)
    | NoMatchingPod(name: string, fragment: string)

  const CriticalPrefix := "critical register "
  const CriticalSuffix := " not found in registry"
  const UnknownPrefix := "wrong register request, name not found: "
  const NoPodPrefix := "no pod that matches "

  /** The message the registry formats for its own errors; a store failure
      carries the store's message instead. Each message opens with a text of its
      own and carries the names it is about at fixed places. */
  function Message(e: RegistryError): (m: string)
    requires !e.StoreFailure?
    ensures |m| > 0
    ensures e.CriticalRegisterMissing? ==> OccursAt(m, e.kind, |CriticalPrefix|)
    ensures e.UnknownRegister? ==> |m| >= |e.name| && OccursAt(m, e.name, |m| - |e.name|)
    ensures e.NoMatchingPod? ==>
              && OccursAt(m, e.name, |NoPodPrefix|)
              && |m| >= |e.fragment| && OccursAt(m, e.fragment, |m| - |e.fragment|)
    ensures e.CriticalRegisterMissing? ==> m[0] == 'c'
    ensures e.UnknownRegister? ==> m[0] == 'w'
    ensures e.NoMatchingPod? ==> m[0] == 'n'
  {
    match e
    case CriticalRegisterMissing(kind) =>
      var m := CriticalPrefix + kind + CriticalSuffix;
      assert m[|CriticalPrefix|..|CriticalPrefix| + |kind|] == kind;
      assert m[0] == CriticalPrefix[0];
      m
    case UnknownRegister(name) =>
      var m := UnknownPrefix + name;
      assert m[|m| - |name|..] == name;
      assert m[0] == UnknownPrefix[0];
      m
    case NoMatchingPod(name, fragment) =>
      var m := NoPodPrefix + name + ", " + fragment;
      assert m[|NoPodPrefix|..|NoPodPrefix| + |name|] == name;
      assert m[|m| - |fragment|..] == fragment;
      assert m[0] == NoPodPrefix[0];
      m
  }

  /** The critical-register message names the missing kind unambiguously: two
      such messages are equal only for the same kind. */
  lemma CriticalMessageNamesKind(a: string, b: string)
    requires Message(CriticalRegisterMissing(a)) == Message(CriticalRegisterMissing(b))
    ensures a == b
  {
    var ma := Message(CriticalRegisterMissing(a));
    var prefix := "critical register ";
    assert |a| == |b|;
    assert a == ma[|prefix|..|prefix| + |a|];
  }

  /** The critical-register check: the map comes back unchanged when it binds
      ipam, as and ni, and otherwise the first missing one, in that order, is
      reported. */
  function CheckCritical(regs: map<string, string>): (r: Result<map<string, string>, RegistryError>)
    ensures r.Ok? <==> {"ipam", "as", "ni"} <= regs.Keys
    ensures r.Ok? ==> r.value == regs
    ensures r.Err? ==>
              && r.error.CriticalRegisterMissing?
              && Message(r.error) == "critical register " + r.error.kind + " not found in registry"
    ensures "ipam" !in regs ==>
              r == Err(CriticalRegisterMissing("ipam"))
    ensures "ipam" in regs && "as" !in regs ==>
              r == Err(CriticalRegisterMissing("as"))
    ensures "ipam" in regs && "as" in regs && "ni" !in regs ==>
              r == Err(CriticalRegisterMissing("ni"))
  {
    var critical := CriticalRegisters;
    assert critical[0] == "ipam" && critical[1] == "as" && critical[2] == "ni";
    match Collections.FirstWhere(critical, kind => kind !in regs)
    case None =>
      assert forall j :: 0 <= j < 3 ==> critical[j] in regs;
      Ok(regs)
    case Some(i) =>
      assert forall j :: 0 <= j < i ==> critical[j] in regs;
      Err(CriticalRegisterMissing(critical[i]))
  }

  /** The resolved register map of the addressed resource: a Deployment when the
      decoded kind says so, an Organization for every other kind. Store failures
      come back unchanged; a map missing a critical register is refused, for
      Organizations as much as for Deployments. */
  function GetRegister(store: Store, namespace: string, fullOdaName: string, odaKind: OdaKind)
    : (r: Result<map<string, string>, RegistryError>)
    ensures store.outage.Some? ==> r == Err(StoreFailure(Unavailable(store.outage.value)))
    ensures store.outage.None? && odaKind.OdaDeployment? ==>
              var key := NamespacedName(namespace, fullOdaName);
              && (key !in store.deployments ==> r == Err(StoreFailure(NotFound(key))))
              && (key in store.deployments ==> r == CheckCritical(DeploymentApi.GetStateRegister(store.deployments[key])))
    ensures store.outage.None? && !odaKind.OdaDeployment? ==>
              var key := NamespacedName(namespace, fullOdaName);
              && (key !in store.organizations ==> r == Err(StoreFailure(NotFound(key))))
              && (key in store.organizations ==> r == CheckCritical(OrganizationApi.GetStateRegister(store.organizations[key])))
  {
    var key := NamespacedName(namespace, fullOdaName);
    var fetched :=
      if odaKind.OdaDeployment? then
        match GetDeployment(store, key)
        case Err(e) => Err(e)
        case Ok(d) => Ok(DeploymentApi.GetStateRegister(d))
      else
        match GetOrganization(store, key)
        case Err(e) => Err(e)
        case Ok(o) => Ok(OrganizationApi.GetStateRegister(o));
    match fetched
    case Err(e) => Err(StoreFailure(e))
    case Ok(regs) => CheckCritical(regs)
  }

  /** An Organization is refused at lookup time exactly when its resolved map
      lacks one of ipam, as and ni, and the error names a missing one, although
      nothing refused that map when it was stored. */
  lemma IncompleteOrganizationRefused(store: Store, namespace: string, name: string, kind: string)
    requires store.outage.None?
    requires NamespacedName(namespace, name) in store.organizations
    ensures var regs := OrganizationApi.GetStateRegister(store.organizations[NamespacedName(namespace, name)]);
            var r := GetRegister(store, namespace, name, OdaOther(kind));
            && (r.Err? <==> !({"ipam", "as", "ni"} <= regs.Keys))
            && (r.Err? ==> r.error.CriticalRegisterMissing? && r.error.kind !in regs)
            && ("ipam" in regs && "as" in regs && "ni" !in regs ==> r == Err(CriticalRegisterMissing("ni")))
  {
  }

  /** The resolved strategy of the addressed resource: the Deployment named by the
      deployment part when that part is non-empty, else the Organization named by
      the organization part. No register is checked. */
  function GetAddressAllocationStrategy(store: Store, namespace: string, oda: Odns)
    : (r: Result<Option<Strategy>, RegistryError>)
    ensures store.outage.Some? ==> r == Err(StoreFailure(Unavailable(store.outage.value)))
    ensures store.outage.None? && oda.deployment != "" ==>
              var key := NamespacedName(namespace, oda.deployment);
              && (key !in store.deployments ==> r == Err(StoreFailure(NotFound(key))))
              && (key in store.deployments ==>
                    r == Ok(DeploymentApi.GetStateAddressAllocationStrategy(store.deployments[key])))
    ensures store.outage.None? && oda.deployment == "" ==>
              var key := NamespacedName(namespace, oda.organization);
              && (key !in store.organizations ==> r == Err(StoreFailure(NotFound(key))))
              && (key in store.organizations ==>
                    r == Ok(OrganizationApi.GetStateAddressAllocationStrategy(store.organizations[key])))
  {
    if oda.deployment != "" then
      match GetDeployment(store, NamespacedName(namespace, oda.deployment))
      case Err(e) => Err(StoreFailure(e))
      case Ok(d) => Ok(DeploymentApi.GetStateAddressAllocationStrategy(d))
    else
      match GetOrganization(store, NamespacedName(namespace, oda.organization))
      case Err(e) => Err(StoreFailure(e))
      case Ok(o) => Ok(OrganizationApi.GetStateAddressAllocationStrategy(o))
  }

  /** A Deployment stored as a reconciliation pass resolved it is served its
      own strategy, the empty one when its spec sets none, and never nil, whatever
      its organization holds. */
  lemma ReconciledDeploymentStrategyServed(store: Store, namespace: string, oda: Odns, orgStrategy: Option<Strategy>)
    requires store.outage.None? && oda.deployment != ""
    requires NamespacedName(namespace, oda.deployment) in store.deployments
    requires var d := store.deployments[NamespacedName(namespace, oda.deployment)];
             DeploymentApi.GetStateAddressAllocationStrategy(d)
             == DeploymentReconciler.GetDeploymentAddressAllocationStrategy(orgStrategy, DeploymentApi.GetAddressAllocationStrategy(d))
    ensures var d := store.deployments[NamespacedName(namespace, oda.deployment)];
            var r := GetAddressAllocationStrategy(store, namespace, oda);
            && r.Ok? && r.value.Some?
            && (d.spec.strategy.Some? ==> r == Ok(d.spec.strategy))
            && (d.spec.strategy.None? ==> r == Ok(Some(EmptyStrategy)))
  {
    var d := store.deployments[NamespacedName(namespace, oda.deployment)];
    DeploymentReconciler.ParentStrategyNeverChosen(orgStrategy, d);
  }

  /** An Organization stored as a successful reconciliation pass left it is served
      its own strategy, the empty one when its spec sets none. */
  lemma ReconciledOrganizationStrategyServed(store: Store, namespace: string, oda: Odns)
    requires store.outage.None? && oda.deployment == ""
    requires NamespacedName(namespace, oda.organization) in store.organizations
    requires var o := store.organizations[NamespacedName(namespace, oda.organization)];
             OrganizationApi.GetStateAddressAllocationStrategy(o) == OrganizationApi.GetAddressAllocationStrategy(o)
    ensures var o := store.organizations[NamespacedName(namespace, oda.organization)];
            var r := GetAddressAllocationStrategy(store, namespace, oda);
            && (o.spec.strategy.Some? ==> r == Ok(o.spec.strategy))
            && (o.spec.strategy.None? ==> r == Ok(Some(EmptyStrategy)))
  {
  }

  /** The backend services, by register name: the fragment their pod names contain. */
  const ServiceFragments: map<string, string> := map[
    KindString(Ipam) := "nddr-ipam-registry",
    KindString(As) := "nddr-as-registry",
    KindString(Ni) := "nddr-ni-registry"]

  /** Only the three critical kinds have a backend service. */
  lemma ServedKinds()
    ensures ServiceFragments.Keys == {"ipam", "as", "ni"}
    ensures Vlan !in ServiceFragments && Esi !in ServiceFragments && Rt !in ServiceFragments
  {
  }

  /** The service naming constants of the deployment platform: service prefix,
      cluster-local DNS suffix and server port. */
  datatype ServiceNaming = ServiceNaming(prefix: string, dnsSuffix: string, port: nat)

  /** How many leading dash-separated tokens of an `n`-token pod name make up the
      service name: all but the last two, and never fewer than one. */
  function KeptTokens(n: nat): nat {
    if n >= 3 then n - 2 else 1
  }

  /** The service name within a pod name: the pod name without its two trailing
      dash-separated tokens (a pod name with two tokens loses only the second). */
  function Stem(podName: string): (stem: string)
    ensures var t := Split(podName, '-');
            |t| >= 3 ==> podName == stem + "-" + t[|t| - 2] + "-" + t[|t| - 1]
    ensures var t := Split(podName, '-');
            |t| <= 2 ==> stem == t[0]
    ensures |stem| <= |podName| && podName[..|stem|] == stem
  {
    var t := Split(podName, '-');
    var n := |t|;
    JoinSplit(podName, '-');
    if n >= 3 then
      assert t[..n - 1] == t[..n - 2] + [t[n - 2]];
      assert t == t[..n - 1] + [t[n - 1]];
      JoinSnoc(t[..n - 2], t[n - 2], '-');
      JoinSnoc(t[..n - 1], t[n - 1], '-');
      Join(t[..n - 2], '-')
    else
      assert t[..1] == [t[0]];
      Join(t[..1], '-')
  }

  /** A pod name made of dash-free tokens (a Deployment's pods carry a template
      hash and an instance suffix) has as its stem the tokens it keeps, joined
      back with dashes: "nddr-ipam-registry-7d9f-abcde" gives "nddr-ipam-registry". */
  lemma StemOfTokens(tokens: seq<string>)
    requires |tokens| >= 1
    requires forall i :: 0 <= i < |tokens| ==> '-' !in tokens[i]
    ensures Stem(Join(tokens, '-')) == Join(tokens[..KeptTokens(|tokens|)], '-')
  {
    SplitJoin(tokens, '-');
  }

  /** The address the backend service behind a given stem answers on. */
  function Endpoint(naming: ServiceNaming, stem: string): string {
    naming.prefix + "-" + stem + "." + naming.dnsSuffix + Itoa(naming.port)
  }

  /** Builds the service address from a pod name by walking its dash-separated
      tokens, keeping the first and every later one up to the third from the end. */
  method GrpcServerName(naming: ServiceNaming, podName: string) returns (endpoint: string)
    ensures endpoint == Endpoint(naming, Stem(podName))
  {
    var tokens := Split(podName, '-');
    var kept := KeptTokens(|tokens|);
    var newName := "";
    var i := 0;
    while i < |tokens|
      invariant 0 <= i <= |tokens|
      invariant i > 0 ==> newName == Join(tokens[..if i < kept then i else kept], '-')
    {
      if i == 0 {
        assert tokens[..1] == [tokens[0]];
        newName := tokens[i];
      } else if i <= |tokens| - 3 {
        JoinSnoc(tokens[..i], tokens[i], '-');
        assert tokens[..i] + [tokens[i]] == tokens[..i + 1];
        newName := newName + "-" + tokens[i];
      }
      i := i + 1;
    }
    endpoint := naming.prefix + "-" + newName + "." + naming.dnsSuffix + Itoa(naming.port);
  }

  /** The backend endpoint serving `registerName`: only ipam, as and ni have one;
      the pods of the platform namespace are searched in list order and the first
      whose name contains the service fragment gives the address. Dialling it is
      left to the caller. */
  method GetRegistryClient(store: Store, naming: ServiceNaming, registerName: string)
    returns (r: Result<string, RegistryError>)
    ensures registerName !in ServiceFragments ==>
              r == Err(UnknownRegister(registerName))
              && Message(r.error) == "wrong register request, name not found: " + registerName
    ensures r.Ok? ==> registerName in {"ipam", "as", "ni"}
    ensures registerName in ServiceFragments && store.outage.Some? ==>
              r == Err(StoreFailure(Unavailable(store.outage.value)))
    ensures registerName in ServiceFragments && store.outage.None? ==>
              var pods := ListPods(store, NddNamespace).value;
              var fragment := ServiceFragments[registerName];
              match Collections.FirstWhere(pods, pod => Contains(pod, fragment))
              case None =>
                r == Err(NoMatchingPod(registerName, fragment))
                && Message(r.error) == "no pod that matches " + registerName + ", " + fragment
              case Some(i) => r == Ok(Endpoint(naming, Stem(pods[i])))
  {
    ServedKinds();
    if registerName !in ServiceFragments {
      return Err(UnknownRegister(registerName));
    }
    var fragment := ServiceFragments[registerName];
    var listed := ListPods(store, NddNamespace);
    if listed.Err? {
      return Err(StoreFailure(listed.error));
    }
    var pods := listed.value;
    match Collections.FirstWhere(pods, pod => Contains(pod, fragment))
    case None =>
      r := Err(NoMatchingPod(registerName, fragment));
    case Some(i) =>
      var endpoint := GrpcServerName(naming, pods[i]);
      r := Ok(endpoint);
  }
}
