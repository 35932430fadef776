/** The Deployment resource and its accessors: the child resource of the
    hierarchy, scoped to one organization and optionally overriding its registers
    and strategy. */
module DeploymentApi {
  import opened Wrappers
  import opened Registers
  import SB = StatusBlock

  /** The Deployment spec properties; every optional field is a pointer in the source. */
  datatype Properties = Properties(
    adminState: Option<string>,
    description: Option<string>,
    kind: Option<string>,
    region: Option<string>,
    register: seq<Register>,
    strategy: Option<Strategy>)

  /** A Deployment: its identity, its spec and its optional status block. */
  datatype Deployment = Deployment(namespace: string, name: string, spec: Properties, status: Option<SB.Block>)

  /** The status block is present and its state pointer is set, so the setters can write. */
  predicate Initialized(d: Deployment) {
    SB.Writable(d.status)
  }

  /** The organization part of the decoded resource name. */
  function GetOrganizationName(d: Deployment, decode: Decoder): (n: string)
    ensures Odns(n, decode(d.name).deployment) == decode(d.name)
  {
    decode(d.name).organization
  }

  /** The deployment part of the decoded resource name: with the organization
      part it rebuilds the whole decoded name. */
  function GetDeploymentName(d: Deployment, decode: Decoder): (n: string)
    ensures Odns(GetOrganizationName(d, decode), n) == decode(d.name)
  {
    decode(d.name).deployment
  }

  /** The two name getters together give back the whole decoded name, and they
      read nothing but the resource name: two Deployments with the same name
      agree on both parts whatever else differs. */
  lemma DecodedName(d: Deployment, d': Deployment, decode: Decoder)
    ensures Odns(GetOrganizationName(d, decode), GetDeploymentName(d, decode)) == decode(d.name)
    ensures d.name == d'.name ==>
              GetOrganizationName(d, decode) == GetOrganizationName(d', decode)
              && GetDeploymentName(d, decode) == GetDeploymentName(d', decode)
  {
  }

  function GetAdminState(d: Deployment): (s: string)
    ensures d.spec.adminState.None? ==> s == ""
    ensures d.spec.adminState.Some? ==> s == d.spec.adminState.value
  {
    ValueOrEmpty(d.spec.adminState)
  }

  function GetDescription(d: Deployment): (s: string)
    ensures d.spec.description.None? ==> s == ""
    ensures d.spec.description.Some? ==> s == d.spec.description.value
  {
    ValueOrEmpty(d.spec.description)
  }

  function GetKind(d: Deployment): (s: string)
    ensures d.spec.kind.None? ==> s == ""
    ensures d.spec.kind.Some? ==> s == d.spec.kind.value
  {
    ValueOrEmpty(d.spec.kind)
  }

  function GetRegion(d: Deployment): (s: string)
    ensures d.spec.region.None? ==> s == ""
    ensures d.spec.region.Some? ==> s == d.spec.region.value
  {
    ValueOrEmpty(d.spec.region)
  }

  /** The spec register list as a kind -> name map: every listed kind is a key,
      an empty list gives the empty map, and the last entry for a kind wins. */
  function GetRegister(d: Deployment): (m: map<string, string>)
    ensures m.Keys == Kinds(d.spec.register)
    ensures |d.spec.register| == 0 ==> m == map[]
    ensures forall i :: 0 <= i < |d.spec.register| && IsLastOfKind(d.spec.register, i) ==>
              d.spec.register[i].kind in m && m[d.spec.register[i].kind] == d.spec.register[i].name
  {
    var rs := d.spec.register;
    forall i | 0 <= i < |rs| && IsLastOfKind(rs, i)
      ensures rs[i].kind in Flatten(rs) && Flatten(rs)[rs[i].kind] == rs[i].name
    {
      FlattenLastWins(rs, i);
    }
    Flatten(rs)
  }

  /** The spec strategy; never nil, an unset strategy reads as the empty one. */
  function GetAddressAllocationStrategy(d: Deployment): (a: Option<Strategy>)
    ensures a.Some?
    ensures d.spec.strategy.Some? ==> a == d.spec.strategy
    ensures d.spec.strategy.None? ==> a == Some(EmptyStrategy)
  {
    if d.spec.strategy.None? then Some(EmptyStrategy) else d.spec.strategy
  }

  /** Allocates the status block if it is absent and leaves an existing one alone. */
  function InitializeResource(d: Deployment): (r: Deployment)
    ensures r.status.Some?
    ensures d.status.None? ==> Initialized(r)
    ensures d.status.Some? ==> r == d
    ensures r.namespace == d.namespace && r.name == d.name && r.spec == d.spec
    ensures d.status.None? ==>
              && GetStateRegister(r) == map[]
              && GetStateAddressAllocationStrategy(r) == Some(EmptyStrategy)
              && GetStatus(r) == "" && GetReason(r) == ""
  {
    if d.status.Some? then d else d.(status := Some(SB.Fresh))
  }

  /** Initialising twice is initialising once. */
  lemma InitializeIdempotent(d: Deployment)
    ensures InitializeResource(InitializeResource(d)) == InitializeResource(d)
  {
  }

  function SetStatus(d: Deployment, s: string): (r: Deployment)
    requires Initialized(d)
    ensures GetStatus(r) == s && GetReason(r) == GetReason(d)
    ensures r.status.Some? && r.status.value.register == d.status.value.register
    ensures GetStateAddressAllocationStrategy(r) == GetStateAddressAllocationStrategy(d)
    ensures Initialized(r) && r.namespace == d.namespace && r.name == d.name && r.spec == d.spec
  {
    d.(status := SB.WithStatus(d.status, s))
  }

  function SetReason(d: Deployment, s: string): (r: Deployment)
    requires Initialized(d)
    ensures GetReason(r) == s && GetStatus(r) == GetStatus(d)
    ensures GetStateRegister(r) == GetStateRegister(d)
    ensures GetStateAddressAllocationStrategy(r) == GetStateAddressAllocationStrategy(d)
    ensures Initialized(r) && r.namespace == d.namespace && r.name == d.name && r.spec == d.spec
  {
    d.(status := SB.WithReason(d.status, s))
  }

  /** The stored status; "unknown" while the status block, its state or its status is unset. */
  function GetStatus(d: Deployment): (s: string)
    ensures d.status.None? ==> s == "unknown"
    ensures !SB.Resolved(d.status) ==> s == "unknown"
    ensures SB.Resolved(d.status) ==> s == d.status.value.state.value.status.value
  {
    SB.Status(d.status)
  }

  /** The stored reason string (a field read; the source has no getter). */
  function GetReason(d: Deployment): string {
    SB.Reason(d.status)
  }

  /** The resolved register map; empty while the status is unresolved. */
  function GetStateRegister(d: Deployment): (m: map<string, string>)
    ensures d.status.None? ==> m == map[]
    ensures !SB.Resolved(d.status) ==> m == map[]
    ensures SB.Resolved(d.status) ==> m == Flatten(d.status.value.register)
  {
    SB.StateRegister(d.status)
  }

  /** Stores `m` as the resolved register list; reading it back gives `m` once
      the status is resolved. Nothing else changes. */
  method SetStateRegister(d: Deployment, m: map<string, string>) returns (r: Deployment)
    requires d.status.Some?
    ensures SB.Resolved(d.status) ==> GetStateRegister(r) == m
    ensures r.status.Some? && Flatten(r.status.value.register) == m
    ensures GetStatus(r) == GetStatus(d) && GetReason(r) == GetReason(d)
    ensures GetStateAddressAllocationStrategy(r) == GetStateAddressAllocationStrategy(d)
    ensures Initialized(d) ==> Initialized(r)
    ensures r.namespace == d.namespace && r.name == d.name && r.spec == d.spec
  {
    var b := SB.WithRegister(d.status, m);
    r := d.(status := b);
  }

  /** The resolved strategy; the empty strategy while there is no status block. */
  function GetStateAddressAllocationStrategy(d: Deployment): (a: Option<Strategy>)
    ensures d.status.None? ==> a == Some(EmptyStrategy)
    ensures d.status.Some? ==> a == d.status.value.strategy
  {
    SB.StateStrategy(d.status)
  }

  /** Stores `a` as the resolved strategy; reading it back gives `a`. */
  function SetStateAddressAllocationStrategy(d: Deployment, a: Option<Strategy>): (r: Deployment)
    requires d.status.Some?
    ensures GetStateAddressAllocationStrategy(r) == a
    ensures GetStatus(r) == GetStatus(d) && GetReason(r) == GetReason(d)
    ensures GetStateRegister(r) == GetStateRegister(d)
    ensures Initialized(d) ==> Initialized(r)
    ensures r.namespace == d.namespace && r.name == d.name && r.spec == d.spec
  {
    d.(status := SB.WithStrategy(d.status, a))
  }
}
