/** The Organization controller: ensures an Organization's namespace exists and
    publishes its spec registers and strategy as its resolved state. The outcome
    of applying or deleting the namespace is an input. */
module OrganizationReconciler {
  import opened Wrappers
  import opened Managed
  import Handler
  import Registers
  import OrganizationApi

  const ReconcileTimeout: nat := Minute

  const ErrUnexpectedResource := "unexpected organization object"

  /** Allocates the status block of an Organization; any other object is refused. */
  function Initialize(obj: Object): (r: Result<Object, string>)
    ensures obj.DeploymentObject? ==> r == Err(ErrUnexpectedResource)
    ensures obj.OrganizationObject? ==> r.Ok? && r.value.OrganizationObject? && r.value.org.status.Some?
    ensures obj.OrganizationObject? && obj.org.status.Some? ==> r == Ok(obj)
    ensures obj.OrganizationObject? && obj.org.status.None? ==> OrganizationApi.Initialized(r.value.org)
    ensures obj.OrganizationObject? ==> r == Ok(OrganizationObject(OrganizationApi.InitializeResource(obj.org)))
    ensures obj.OrganizationObject? ==>
              && r.value.org.namespace == obj.org.namespace
              && r.value.org.name == obj.org.name
              && r.value.org.spec == obj.org.spec
    ensures obj.OrganizationObject? && obj.org.status.None? ==>
              && OrganizationApi.GetStateRegister(r.value.org) == map[]
              && OrganizationApi.GetStateAddressAllocationStrategy(r.value.org) == Some(Registers.EmptyStrategy)
              && OrganizationApi.GetStatus(r.value.org) == "" && OrganizationApi.GetReason(r.value.org) == ""
  {
    match obj
    case OrganizationObject(o) => Ok(OrganizationObject(OrganizationApi.InitializeResource(o)))
    case DeploymentObject(_) => Err(ErrUnexpectedResource)
  }

  /** Initialising an initialised Organization is a no-op. */
  lemma InitializeIdempotent(obj: Object)
    requires Initialize(obj).Ok?
    ensures Initialize(Initialize(obj).value) == Initialize(obj)
  {
  }

  /** The outcome of one pass over an Organization, given the outcome of applying
      its namespace. The pass applies the Organization's own namespace. The
      resource keeps its identity and spec. Labels are always empty and no error
      is reported. If the namespace could not be applied, the Organization is
      untouched. Otherwise it is "up", and its resolved state mirrors its spec. */
  predicate PassOutcome(
    o: OrganizationApi.Organization,
    applyFailure: Option<string>,
    r: OrganizationApi.Organization,
    call: Handler.NamespaceCall,
    labels: Option<Labels>,
    err: Option<string>)
  {
    && call.action == Handler.Apply && call.target.name == o.name
    && (call.err.None? <==> applyFailure.None?)
    && labels == Some(map[]) && err.None?
    && r.namespace == o.namespace && r.name == o.name && r.spec == o.spec
    && (call.err.Some? ==> r == o)
    && (call.err.None? ==>
        && OrganizationApi.GetStatus(r) == "up"
        && OrganizationApi.GetReason(r) == ""
        && OrganizationApi.GetStateRegister(r) == OrganizationApi.GetRegister(o)
        && OrganizationApi.GetStateAddressAllocationStrategy(r) == OrganizationApi.GetAddressAllocationStrategy(o))
  }

  /** One reconciliation pass over an Organization. The counter entry is created
      first, then the Organization's namespace is applied. A failure to apply it
      leaves the Organization untouched and is not reported; otherwise the
      Organization is "up" and its resolved state mirrors its spec. No register
      is checked for presence here. */
  method HandleAppLogic(o: OrganizationApi.Organization, table: Handler.Speedy, applyFailure: Option<string>)
    returns (
      r: OrganizationApi.Organization,
      table': Handler.Speedy,
      call: Handler.NamespaceCall,
      labels: Option<Labels>,
      err: Option<string>)
    requires applyFailure.None? ==> OrganizationApi.Initialized(o)
    ensures table' == Handler.Init(table, Handler.CrName(o.namespace, o.name))
    ensures PassOutcome(o, applyFailure, r, call, labels, err)
  {
    table' := Handler.Init(table, Handler.CrName(o.namespace, o.name));
    call := Handler.CreateOrganizationNamespace(o, applyFailure);
    if call.err.Some? {
      return o, table', call, Some(map[]), None;
    }
    var register := OrganizationApi.GetRegister(o);
    var aas := OrganizationApi.GetAddressAllocationStrategy(o);
    r := OrganizationApi.SetStatus(o, "up");
    r := OrganizationApi.SetReason(r, "");
    r := OrganizationApi.SetStateRegister(r, register);
    r := OrganizationApi.SetStateAddressAllocationStrategy(r, aas);
    labels := Some(map[]);
    err := None;
  }

  /** `Update` type-checks the object and runs one pass. An Organization never
      yields an error, its namespace is applied, and it ends "up" exactly when
      that namespace could be applied. */
  method Update(obj: Object, table: Handler.Speedy, applyFailure: Option<string>)
    returns (
      obj': Object,
      table': Handler.Speedy,
      call: Option<Handler.NamespaceCall>,
      labels: Option<Labels>,
      err: Option<string>)
    requires obj.OrganizationObject? && applyFailure.None? ==> OrganizationApi.Initialized(obj.org)
    ensures obj.DeploymentObject? ==>
              obj' == obj && table' == table && call.None? && labels.None? && err == Some(ErrUnexpectedResource)
    ensures obj.OrganizationObject? ==>
              && obj'.OrganizationObject?
              && table' == Handler.Init(table, Handler.CrName(obj.org.namespace, obj.org.name))
              && call.Some? && call.value.action == Handler.Apply && call.value.target.name == obj.org.name
              && obj'.org.spec == obj.org.spec
              && err.None?
    ensures obj.OrganizationObject? ==>
              call.Some? && PassOutcome(obj.org, applyFailure, obj'.org, call.value, labels, err)
    ensures obj.OrganizationObject? && OrganizationApi.GetStatus(obj.org) != "up" ==>
              (OrganizationApi.GetStatus(obj'.org) == "up" <==> applyFailure.None?)
  {
    match obj
    case DeploymentObject(_) =>
      return obj, table, None, None, Some(ErrUnexpectedResource);
    case OrganizationObject(o) =>
      var o', c;
      o', table', c, labels, err := HandleAppLogic(o, table, applyFailure);
      obj' := OrganizationObject(o');
      call := Some(c);
  }

  /** The wait before the next forced reconciliation: always one minute. */
  function Timeout(obj: Object): (wait: nat)
    ensures wait == 60 * Second
  {
    ReconcileTimeout
  }

  /** An Organization is always reported finalisable and its namespace is
      deleted; the error, if any, is the wrapped failure to delete it. Any other
      object is refused and nothing is deleted. */
  function Delete(obj: Object, deleteFailure: Option<string>)
    : (r: (bool, Option<string>, Option<Handler.NamespaceCall>))
    ensures r.0
    ensures obj.DeploymentObject? ==> r.1 == Some(ErrUnexpectedResource) && r.2.None?
    ensures obj.OrganizationObject? ==>
              r.2.Some? && r.2.value.action == Handler.Remove && r.2.value.target.name == obj.org.name
    ensures obj.OrganizationObject? ==> (r.1.None? <==> deleteFailure.None?)
    ensures obj.OrganizationObject? && deleteFailure.Some? ==>
              r.1 == Some(Handler.ErrApplyNamespace + ": " + deleteFailure.value)
  {
    match obj
    case DeploymentObject(_) => (true, Some(ErrUnexpectedResource), None)
    case OrganizationObject(o) =>
      var call := Handler.DeleteOrganizationNamespace(o, deleteFailure);
      (true, call.err, Some(call))
  }

  /** The final step of deletion as the source writes it: it checks for a
      Deployment, not an Organization, so for the objects this controller
      handles nothing is removed, and only a Deployment's entry could go. */
  function FinalDelete(obj: Object, table: Handler.Speedy): (t: Handler.Speedy)
    ensures obj.OrganizationObject? ==> t == table
    ensures obj.DeploymentObject? ==>
              t == Handler.Delete(table, Handler.CrName(obj.dep.namespace, obj.dep.name))
  {
    match obj
    case DeploymentObject(d) => Handler.Delete(table, Handler.CrName(d.namespace, d.name))
    case OrganizationObject(_) => table
  }

  /** The counter entry a reconciliation pass creates for an Organization
      survives its final deletion: the entry leaks. */
  lemma FinalDeleteKeepsOrganizationCounter(o: OrganizationApi.Organization, table: Handler.Speedy)
    ensures var key := Handler.CrName(o.namespace, o.name);
            var t := FinalDelete(OrganizationObject(o), Handler.Init(table, key));
            key in t && t == Handler.Init(table, key)
  {
  }

  /** The final step of deletion as evidently intended: a deleted Organization's
      counter entry is removed and every other entry is kept. */
  function FinalDeleteIntended(obj: Object, table: Handler.Speedy): (t: Handler.Speedy)
    ensures obj.OrganizationObject? ==>
              var key := Handler.CrName(obj.org.namespace, obj.org.name);
              && t.Keys == table.Keys - {key}
              && Handler.GetSpeedy(t, key) == Handler.Untracked
              && forall k :: k in t ==> t[k] == table[k]
    ensures obj.DeploymentObject? ==> t == table
  {
    match obj
    case OrganizationObject(o) => Handler.Delete(table, Handler.CrName(o.namespace, o.name))
    case DeploymentObject(_) => table
  }

  /** With the intended final deletion, a reconciled then deleted Organization
      leaves the counter table as it was before its first pass, apart from its
      own key, which is untracked again. */
  lemma FinalDeleteIntendedUntracks(o: OrganizationApi.Organization, table: Handler.Speedy)
    ensures var key := Handler.CrName(o.namespace, o.name);
            FinalDeleteIntended(OrganizationObject(o), Handler.Init(table, key)) == table - {key}
  {
    var key := Handler.CrName(o.namespace, o.name);
    var t := FinalDeleteIntended(OrganizationObject(o), Handler.Init(table, key));
    assert t.Keys == (table - {key}).Keys;
  }
}
