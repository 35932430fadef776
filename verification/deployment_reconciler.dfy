/** The Deployment controller: resolves a Deployment's registers and strategy by
    inheriting from the organization it belongs to. Store reads are inputs: the
    organization list (or the store's failure to list it). */
module DeploymentReconciler {
  import opened Wrappers
  import opened Registers
  import Collections
  import opened Managed
  import Handler
  import DeploymentApi
  import OrganizationApi

  const ReconcileTimeout: nat := Minute

  const ErrUnexpectedResource := "unexpected deployment object"
  const ErrOrganizationNotFound := "organization not found"
  const ReasonAdminDisabled := "admin state disabled"

  /** The register map a Deployment resolves to: every kind the Deployment or its
      organization binds, the Deployment's own binding winning, the organization's
      filling the gaps. */
  function Inherited(org: map<string, string>, dep: map<string, string>): (r: map<string, string>)
    ensures r.Keys == org.Keys + dep.Keys
    ensures forall k :: k in dep ==> r[k] == dep[k]
    ensures forall k :: k in org && k !in dep ==> r[k] == org[k]
  {
    org + dep
  }

  /** Inheriting again from the same organization changes nothing. */
  lemma InheritIdempotent(org: map<string, string>, dep: map<string, string>)
    ensures Inherited(org, Inherited(org, dep)) == Inherited(org, dep)
  {
  }

  /** An organization binding ipam, as and ni and a Deployment overriding only
      ipam resolve to the Deployment's ipam and the organization's as and ni;
      no other kind appears. */
  lemma IpamOverride(org: map<string, string>, pool: string)
    requires {"ipam", "as", "ni"} <= org.Keys
    ensures var r := Inherited(org, map["ipam" := pool]);
            && r.Keys == org.Keys
            && r["ipam"] == pool
            && r["as"] == org["as"]
            && r["ni"] == org["ni"]
            && forall k :: k in org && k != "ipam" ==> r[k] == org[k]
  {
  }

  /** Adds each organization binding whose kind the Deployment map lacks, visiting
      the organization map in an order the caller cannot choose. */
  method GetDeploymentRegister(orgRegister: map<string, string>, depRegister: map<string, string>)
    returns (r: map<string, string>)
    ensures r == Inherited(orgRegister, depRegister)
  {
    r := depRegister;
    var pending := orgRegister.Keys;
    InheritNothing(orgRegister, depRegister);
    while pending != {}
      invariant pending <= orgRegister.Keys
      invariant r == Inherited(orgRegister - pending, depRegister)
      decreases pending
    {
      var kind :| kind in pending;
      InheritStep(orgRegister, depRegister, pending, kind);
      if kind !in r {
        r := r[kind := orgRegister[kind]];
      }
      pending := pending - {kind};
    }
    assert orgRegister - {} == orgRegister;
  }

  /** Before the loop no organization binding has been added. */
  lemma InheritNothing(org: map<string, string>, dep: map<string, string>)
    ensures Inherited(org - org.Keys, dep) == dep
  {
    assert org - org.Keys == map[];
  }

  /** One iteration of the inheritance loop moves one organization binding from
      pending to processed. */
  lemma InheritStep(org: map<string, string>, dep: map<string, string>, pending: set<string>, kind: string)
    requires pending <= org.Keys && kind in pending
    ensures var r := Inherited(org - pending, dep);
            (if kind in r then r else r[kind := org[kind]]) == Inherited(org - (pending - {kind}), dep)
  {
  }

  /** The Deployment's strategy unless it is nil, then the organization's. */
  function GetDeploymentAddressAllocationStrategy(orgStrategy: Option<Strategy>, depStrategy: Option<Strategy>)
    : (a: Option<Strategy>)
    ensures depStrategy.Some? ==> a == depStrategy
    ensures depStrategy.None? ==> a == orgStrategy
  {
    if depStrategy.Some? then depStrategy else orgStrategy
  }

  /** The Deployment's strategy getter never yields nil, so the organization's
      strategy is never the one chosen: an unset Deployment strategy resolves to
      the empty strategy whatever the organization holds. */
  lemma ParentStrategyNeverChosen(orgStrategy: Option<Strategy>, d: DeploymentApi.Deployment)
    ensures GetDeploymentAddressAllocationStrategy(orgStrategy, DeploymentApi.GetAddressAllocationStrategy(d))
         == DeploymentApi.GetAddressAllocationStrategy(d)
    ensures d.spec.strategy.None? ==>
              GetDeploymentAddressAllocationStrategy(orgStrategy, DeploymentApi.GetAddressAllocationStrategy(d))
              == Some(EmptyStrategy)
  {
  }

  /** The position of the Deployment's organization in the list: the first
      organization, in list order, whose decoded organization name equals the
      Deployment's. */
  function FindOrganization(orgs: seq<OrganizationApi.Organization>, d: DeploymentApi.Deployment, decode: Decoder)
    : (r: Option<nat>)
    ensures r.Some? ==> r.value < |orgs|
    ensures r.Some? ==> OrganizationApi.GetOrganizationName(orgs[r.value], decode) == DeploymentApi.GetOrganizationName(d, decode)
    ensures r.Some? ==> forall j :: 0 <= j < r.value ==>
              OrganizationApi.GetOrganizationName(orgs[j], decode) != DeploymentApi.GetOrganizationName(d, decode)
    ensures r.None? <==> forall j :: 0 <= j < |orgs| ==>
              OrganizationApi.GetOrganizationName(orgs[j], decode) != DeploymentApi.GetOrganizationName(d, decode)
    ensures forall i :: 0 <= i < |orgs| && orgs[i].name == d.name ==> r.Some? && r.value <= i
  {
    var name := DeploymentApi.GetOrganizationName(d, decode);
    Collections.FirstWhere(orgs, o => OrganizationApi.GetOrganizationName(o, decode) == name)
  }

  /** Allocates the status block of a Deployment; any other object is refused. */
  function Initialize(obj: Object): (r: Result<Object, string>)
    ensures obj.OrganizationObject? ==> r == Err(ErrUnexpectedResource)
    ensures obj.DeploymentObject? ==> r.Ok? && r.value.DeploymentObject? && r.value.dep.status.Some?
    ensures obj.DeploymentObject? && obj.dep.status.Some? ==> r == Ok(obj)
    ensures obj.DeploymentObject? && obj.dep.status.None? ==> DeploymentApi.Initialized(r.value.dep)
    ensures obj.DeploymentObject? ==> r == Ok(DeploymentObject(DeploymentApi.InitializeResource(obj.dep)))
    ensures obj.DeploymentObject? ==>
              && r.value.dep.namespace == obj.dep.namespace
              && r.value.dep.name == obj.dep.name
              && r.value.dep.spec == obj.dep.spec
    ensures obj.DeploymentObject? && obj.dep.status.None? ==>
              && DeploymentApi.GetStateRegister(r.value.dep) == map[]
              && DeploymentApi.GetStateAddressAllocationStrategy(r.value.dep) == Some(EmptyStrategy)
              && DeploymentApi.GetStatus(r.value.dep) == "" && DeploymentApi.GetReason(r.value.dep) == ""
  {
    match obj
    case DeploymentObject(d) => Ok(DeploymentObject(DeploymentApi.InitializeResource(d)))
    case OrganizationObject(_) => Err(ErrUnexpectedResource)
  }

  /** Initialising an initialised Deployment is a no-op. */
  lemma InitializeIdempotent(obj: Object)
    requires Initialize(obj).Ok?
    ensures Initialize(Initialize(obj).value) == Initialize(obj)
  {
  }

  /** The outcome of one pass over a Deployment, given the organization listing.
      The resource keeps its identity and spec. A listing failure changes nothing
      and is returned. A missing organization leaves it "down" with that reason
      and no resolved registers, and is returned. An admin-disabled Deployment is
      "down" with no resolved registers. Otherwise it is "up" with the inherited
      registers and the chosen strategy. Labels are nil exactly on an error. */
  predicate PassOutcome(
    d: DeploymentApi.Deployment,
    orgList: Result<seq<OrganizationApi.Organization>, string>,
    decode: Decoder,
    r: DeploymentApi.Deployment,
    labels: Option<Labels>,
    err: Option<string>)
  {
    && (r.namespace == d.namespace && r.name == d.name && r.spec == d.spec)
    && (orgList.Err? ==> r == d && labels.None? && err == Some(orgList.error))
    && (orgList.Ok? && FindOrganization(orgList.value, d, decode).None? ==>
        && DeploymentApi.GetStatus(r) == "down"
        && DeploymentApi.GetReason(r) == ErrOrganizationNotFound
        && DeploymentApi.GetStateRegister(r) == map[]
        && DeploymentApi.GetStateAddressAllocationStrategy(r) == DeploymentApi.GetStateAddressAllocationStrategy(d)
        && labels.None? && err == Some(ErrOrganizationNotFound))
    && (orgList.Ok? && FindOrganization(orgList.value, d, decode).Some? && DeploymentApi.GetAdminState(d) == "disable" ==>
        && DeploymentApi.GetStatus(r) == "down"
        && DeploymentApi.GetReason(r) == ReasonAdminDisabled
        && DeploymentApi.GetStateRegister(r) == map[]
        && DeploymentApi.GetStateAddressAllocationStrategy(r) == DeploymentApi.GetStateAddressAllocationStrategy(d)
        && labels == Some(map[]) && err.None?)
    && (orgList.Ok? && FindOrganization(orgList.value, d, decode).Some? && DeploymentApi.GetAdminState(d) != "disable" ==>
        var org := orgList.value[FindOrganization(orgList.value, d, decode).value];
        && DeploymentApi.GetStatus(r) == "up"
        && DeploymentApi.GetReason(r) == ""
        && DeploymentApi.GetStateRegister(r)
           == Inherited(OrganizationApi.GetRegister(org), DeploymentApi.GetRegister(d))
        && DeploymentApi.GetStateAddressAllocationStrategy(r)
           == GetDeploymentAddressAllocationStrategy(
                OrganizationApi.GetAddressAllocationStrategy(org), DeploymentApi.GetAddressAllocationStrategy(d))
        && labels == Some(map[]) && err.None?)
  }

  /** One reconciliation pass over a Deployment. The counter entry is created
      first; a listing failure is returned as-is with nothing else changed;
      otherwise the first organization with the Deployment's organization name
      decides the outcome: none found is "down" with an error, an admin-disabled
      Deployment is "down", and otherwise the Deployment is "up" with the
      registers inherited from the organization's spec. */
  method HandleAppLogic(
    d: DeploymentApi.Deployment,
    table: Handler.Speedy,
    orgList: Result<seq<OrganizationApi.Organization>, string>,
    decode: Decoder)
    returns (r: DeploymentApi.Deployment, table': Handler.Speedy, labels: Option<Labels>, err: Option<string>)
    requires orgList.Ok? ==> DeploymentApi.Initialized(d)
    ensures table' == Handler.Init(table, Handler.CrName(d.namespace, d.name))
    ensures PassOutcome(d, orgList, decode, r, labels, err)
  {
    table' := Handler.Init(table, Handler.CrName(d.namespace, d.name));
    if orgList.Err? {
      return d, table', None, Some(orgList.error);
    }
    var orgs := orgList.value;
    var found := FindOrganization(orgs, d, decode);
    if found.None? {
      r := DeploymentApi.SetStatus(d, "down");
      r := DeploymentApi.SetReason(r, ErrOrganizationNotFound);
      r := DeploymentApi.SetStateRegister(r, map[]);
      return r, table', None, Some(ErrOrganizationNotFound);
    }
    var org := orgs[found.value];
    var orgRegister := OrganizationApi.GetRegister(org);
    var orgStrategy := OrganizationApi.GetAddressAllocationStrategy(org);
    if DeploymentApi.GetAdminState(d) == "disable" {
      r := DeploymentApi.SetStatus(d, "down");
      r := DeploymentApi.SetReason(r, ReasonAdminDisabled);
      r := DeploymentApi.SetStateRegister(r, map[]);
    } else {
      r := DeploymentApi.SetStatus(d, "up");
      r := DeploymentApi.SetReason(r, "");
      var depRegister := GetDeploymentRegister(orgRegister, DeploymentApi.GetRegister(d));
      r := DeploymentApi.SetStateRegister(r, depRegister);
      var aas := GetDeploymentAddressAllocationStrategy(orgStrategy, DeploymentApi.GetAddressAllocationStrategy(d));
      r := DeploymentApi.SetStateAddressAllocationStrategy(r, aas);
    }
    labels := Some(map[]);
    err := None;
  }

  /** `Update` type-checks the object and runs one pass. A Deployment ends "up"
      exactly when the organizations could be listed, its organization is among
      them and it is not admin-disabled; an error comes back exactly when the
      listing failed or the organization is missing. */
  method Update(
    obj: Object,
    table: Handler.Speedy,
    orgList: Result<seq<OrganizationApi.Organization>, string>,
    decode: Decoder)
    returns (obj': Object, table': Handler.Speedy, labels: Option<Labels>, err: Option<string>)
    requires obj.DeploymentObject? && orgList.Ok? ==> DeploymentApi.Initialized(obj.dep)
    ensures obj.OrganizationObject? ==>
              obj' == obj && table' == table && labels.None? && err == Some(ErrUnexpectedResource)
    ensures obj.DeploymentObject? ==>
              && obj'.DeploymentObject?
              && table' == Handler.Init(table, Handler.CrName(obj.dep.namespace, obj.dep.name))
              && obj'.dep.spec == obj.dep.spec
              && (err.None? <==> orgList.Ok? && FindOrganization(orgList.value, obj.dep, decode).Some?)
    ensures obj.DeploymentObject? ==> PassOutcome(obj.dep, orgList, decode, obj'.dep, labels, err)
    ensures obj.DeploymentObject? && orgList.Ok? ==>
              (DeploymentApi.GetStatus(obj'.dep) == "up" <==>
                 FindOrganization(orgList.value, obj.dep, decode).Some? && DeploymentApi.GetAdminState(obj.dep) != "disable")
  {
    match obj
    case OrganizationObject(_) =>
      return obj, table, None, Some(ErrUnexpectedResource);
    case DeploymentObject(d) =>
      var d';
      d', table', labels, err := HandleAppLogic(d, table, orgList, decode);
      obj' := DeploymentObject(d');
  }

  /** The wait before the next forced reconciliation: always one minute. */
  function Timeout(obj: Object): (wait: nat)
    ensures wait == 60 * Second
  {
    ReconcileTimeout
  }

  /** A Deployment can always be finalised at once, without error; any other
      object is refused, though still reported finalisable. */
  function Delete(obj: Object): (r: (bool, Option<string>))
    ensures r.0
    ensures obj.DeploymentObject? ==> r.1.None?
    ensures obj.OrganizationObject? ==> r.1 == Some(ErrUnexpectedResource)
  {
    match obj
    case DeploymentObject(_) => (true, None)
    case OrganizationObject(_) => (true, Some(ErrUnexpectedResource))
  }

  /** Stops tracking a deleted Deployment's counter entry and leaves every other
      entry alone; any other object leaves the table unchanged. */
  function FinalDelete(obj: Object, table: Handler.Speedy): (t: Handler.Speedy)
    ensures obj.DeploymentObject? ==>
              var key := Handler.CrName(obj.dep.namespace, obj.dep.name);
              && t.Keys == table.Keys - {key}
              && Handler.GetSpeedy(t, key) == Handler.Untracked
              && forall k :: k in t ==> t[k] == table[k]
    ensures obj.OrganizationObject? ==> t == table
  {
    match obj
    case DeploymentObject(d) => Handler.Delete(table, Handler.CrName(d.namespace, d.name))
    case OrganizationObject(_) => table
  }
}
