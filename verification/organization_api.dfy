/** The Organization resource and its accessors: the root of the hierarchy,
    owning the registers and strategy its Deployments inherit. */
module OrganizationApi {
  import opened Wrappers
  import opened Registers
  import SB = StatusBlock
  import DeploymentApi

  /** The Organization spec properties; every optional field is a pointer in the source. */
  datatype Properties = Properties(
    description: Option<string>,
    register: seq<Register>,
    strategy: Option<Strategy>)

  /** An Organization: its identity, its spec and its optional status block. */
  datatype Organization = Organization(namespace: string, name: string, spec: Properties, status: Option<SB.Block>)

  /** The status block is present and its state pointer is set, so the setters can write. */
  predicate Initialized(o: Organization) {
    SB.Writable(o.status)
  }

  /** The organization part of the decoded resource name. */
  function GetOrganizationName(o: Organization, decode: Decoder): (n: string)
    ensures forall d: DeploymentApi.Deployment :: d.name == o.name ==> DeploymentApi.GetOrganizationName(d, decode) == n
  {
    decode(o.name).organization
  }

  function GetDescription(o: Organization): (s: string)
    ensures o.spec.description.None? ==> s == ""
    ensures o.spec.description.Some? ==> s == o.spec.description.value
  {
    ValueOrEmpty(o.spec.description)
  }

  /** The spec register list as a kind -> name map: every listed kind is a key,
      an empty list gives the empty map, and the last entry for a kind wins. */
  function GetRegister(o: Organization): (m: map<string, string>)
    ensures m.Keys == Kinds(o.spec.register)
    ensures |o.spec.register| == 0 ==> m == map[]
    ensures forall i :: 0 <= i < |o.spec.register| && IsLastOfKind(o.spec.register, i) ==>
              o.spec.register[i].kind in m && m[o.spec.register[i].kind] == o.spec.register[i].name
  {
    var rs := o.spec.register;
    forall i | 0 <= i < |rs| && IsLastOfKind(rs, i)
      ensures rs[i].kind in Flatten(rs) && Flatten(rs)[rs[i].kind] == rs[i].name
    {
      FlattenLastWins(rs, i);
    }
    Flatten(rs)
  }

  /** The spec strategy; never nil, an unset strategy reads as the empty one. */
  function GetAddressAllocationStrategy(o: Organization): (a: Option<Strategy>)
    ensures a.Some?
    ensures o.spec.strategy.Some? ==> a == o.spec.strategy
    ensures o.spec.strategy.None? ==> a == Some(EmptyStrategy)
  {
    if o.spec.strategy.None? then Some(EmptyStrategy) else o.spec.strategy
  }

  /** Allocates the status block if it is absent and leaves an existing one alone. */
  function InitializeResource(o: Organization): (r: Organization)
    ensures r.status.Some?
    ensures o.status.None? ==> Initialized(r)
    ensures o.status.Some? ==> r == o
    ensures r.namespace == o.namespace && r.name == o.name && r.spec == o.spec
    ensures o.status.None? ==>
              && GetStateRegister(r) == map[]
              && GetStateAddressAllocationStrategy(r) == Some(EmptyStrategy)
              && GetStatus(r) == "" && GetReason(r) == ""
  {
    if o.status.Some? then o else o.(status := Some(SB.Fresh))
  }

  /** Initialising twice is initialising once. */
  lemma InitializeIdempotent(o: Organization)
    ensures InitializeResource(InitializeResource(o)) == InitializeResource(o)
  {
  }

  function SetStatus(o: Organization, s: string): (r: Organization)
    requires Initialized(o)
    ensures GetStatus(r) == s && GetReason(r) == GetReason(o)
    ensures r.status.Some? && r.status.value.register == o.status.value.register
    ensures GetStateAddressAllocationStrategy(r) == GetStateAddressAllocationStrategy(o)
    ensures Initialized(r) && r.namespace == o.namespace && r.name == o.name && r.spec == o.spec
  {
    o.(status := SB.WithStatus(o.status, s))
  }

  function SetReason(o: Organization, s: string): (r: Organization)
    requires Initialized(o)
    ensures GetReason(r) == s && GetStatus(r) == GetStatus(o)
    ensures GetStateRegister(r) == GetStateRegister(o)
    ensures GetStateAddressAllocationStrategy(r) == GetStateAddressAllocationStrategy(o)
    ensures Initialized(r) && r.namespace == o.namespace && r.name == o.name && r.spec == o.spec
  {
    o.(status := SB.WithReason(o.status, s))
  }

  /** The stored status; "unknown" while the status block, its state or its status is unset. */
  function GetStatus(o: Organization): (s: string)
    ensures o.status.None? ==> s == "unknown"
    ensures !SB.Resolved(o.status) ==> s == "unknown"
    ensures SB.Resolved(o.status) ==> s == o.status.value.state.value.status.value
  {
    SB.Status(o.status)
  }

  /** The stored reason string (a field read; the source has no getter). */
  function GetReason(o: Organization): string {
    SB.Reason(o.status)
  }

  /** The resolved register map; empty while the status is unresolved. */
  function GetStateRegister(o: Organization): (m: map<string, string>)
    ensures o.status.None? ==> m == map[]
    ensures !SB.Resolved(o.status) ==> m == map[]
    ensures SB.Resolved(o.status) ==> m == Flatten(o.status.value.register)
  {
    SB.StateRegister(o.status)
  }

  /** Stores `m` as the resolved register list; reading it back gives `m` once
      the status is resolved. Nothing else changes. */
  method SetStateRegister(o: Organization, m: map<string, string>) returns (r: Organization)
    requires o.status.Some?
    ensures SB.Resolved(o.status) ==> GetStateRegister(r) == m
    ensures r.status.Some? && Flatten(r.status.value.register) == m
    ensures GetStatus(r) == GetStatus(o) && GetReason(r) == GetReason(o)
    ensures GetStateAddressAllocationStrategy(r) == GetStateAddressAllocationStrategy(o)
    ensures Initialized(o) ==> Initialized(r)
    ensures r.namespace == o.namespace && r.name == o.name && r.spec == o.spec
  {
    var b := SB.WithRegister(o.status, m);
    r := o.(status := b);
  }

  /** The resolved strategy; the empty strategy while there is no status block. */
  function GetStateAddressAllocationStrategy(o: Organization): (a: Option<Strategy>)
    ensures o.status.None? ==> a == Some(EmptyStrategy)
    ensures o.status.Some? ==> a == o.status.value.strategy
  {
    SB.StateStrategy(o.status)
  }

  /** Stores `a` as the resolved strategy; reading it back gives `a`. */
  function SetStateAddressAllocationStrategy(o: Organization, a: Option<Strategy>): (r: Organization)
    requires o.status.Some?
    ensures GetStateAddressAllocationStrategy(r) == a
    ensures GetStatus(r) == GetStatus(o) && GetReason(r) == GetReason(o)
    ensures GetStateRegister(r) == GetStateRegister(o)
    ensures Initialized(o) ==> Initialized(r)
    ensures r.namespace == o.namespace && r.name == o.name && r.spec == o.spec
  {
    o.(status := SB.WithStrategy(o.status, a))
  }
}
