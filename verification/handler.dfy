/** The shared handler of both controllers: the retry-counter table (called
    "speedy" in the source), the key the controllers file a resource under, and
    the namespace each resource kind owns. The mutex around the table is left out:
    every operation here is one atomic step on an immutable map. */
module Handler {
  import opened Wrappers
  import DeploymentApi
  import OrganizationApi

  /** Retry-counter table: resource key -> attempt count. */
  type Speedy = map<string, int>

  /** What `GetSpeedy` answers for a key the table does not track. */
  const Untracked := 9999

  /** The key a resource is filed under: namespace and name joined by a dot. */
  function CrName(namespace: string, name: string): (key: string)
    ensures |key| == |namespace| + 1 + |name|
    ensures key[..|namespace|] == namespace && key[|namespace|] == '.' && key[|namespace| + 1..] == name
  {
    namespace + "." + name
  }

  /** Kubernetes namespace names carry no dot, so distinct resources get distinct keys. */
  lemma CrNameInjective(ns1: string, name1: string, ns2: string, name2: string)
    requires '.' !in ns1 && '.' !in ns2
    requires CrName(ns1, name1) == CrName(ns2, name2)
    ensures ns1 == ns2 && name1 == name2
  {
  }

  /** Starts tracking `key` at 0; a key already tracked keeps its count. */
  function Init(t: Speedy, key: string): (r: Speedy)
    ensures r.Keys == t.Keys + {key}
    ensures key in t ==> r[key] == t[key]
    ensures key !in t ==> r[key] == 0
    ensures forall k :: k in t && k != key ==> r[k] == t[k]
  {
    if key in t then t else t[key := 0]
  }

  /** Stops tracking `key`; every other key keeps its count. */
  function Delete(t: Speedy, key: string): (r: Speedy)
    ensures r.Keys == t.Keys - {key}
    ensures forall k :: k in r ==> r[k] == t[k]
  {
    t - {key}
  }

  /** Sets a tracked key back to 0; an untracked key stays untracked. */
  function ResetSpeedy(t: Speedy, key: string): (r: Speedy)
    ensures r.Keys == t.Keys
    ensures key in t ==> r[key] == 0
    ensures forall k :: k in t && k != key ==> r[k] == t[k]
  {
    if key in t then t[key := 0] else t
  }

  /** The count of a tracked key, the sentinel for an untracked one. */
  function GetSpeedy(t: Speedy, key: string): (n: int)
    ensures key in t ==> n == t[key]
    ensures key !in t ==> n == Untracked
  {
    if key in t then t[key] else Untracked
  }

  /** Adds one to a tracked key's count; an untracked key stays untracked. */
  function IncrementSpeedy(t: Speedy, key: string): (r: Speedy)
    ensures r.Keys == t.Keys
    ensures key in t ==> r[key] == t[key] + 1
    ensures forall k :: k in t && k != key ==> r[k] == t[k]
  {
    if key in t then t[key := t[key] + 1] else t
  }

  /** `n` successive increments of one key. */
  function IncrementTimes(t: Speedy, key: string, n: nat): Speedy
    decreases n
  {
    if n == 0 then t else IncrementSpeedy(IncrementTimes(t, key, n - 1), key)
  }

  /** Increments of a tracked key add up and leave the set of tracked keys alone. */
  lemma {:induction false} IncrementsAddUp(t: Speedy, key: string, n: nat)
    requires key in t
    ensures IncrementTimes(t, key, n).Keys == t.Keys
    ensures GetSpeedy(IncrementTimes(t, key, n), key) == t[key] + n
    decreases n
  {
    if n > 0 {
      IncrementsAddUp(t, key, n - 1);
    }
  }

  /** From an untracked key, `Init` followed by `n` increments reads back `n`. */
  lemma InitThenIncrements(t: Speedy, key: string, n: nat)
    requires key !in t
    ensures GetSpeedy(IncrementTimes(Init(t, key), key, n), key) == n
  {
    IncrementsAddUp(Init(t, key), key, n);
  }

  /** Increments of an untracked key do nothing. */
  lemma {:induction false} IncrementsIgnoreUntracked(t: Speedy, key: string, n: nat)
    requires key !in t
    ensures IncrementTimes(t, key, n) == t
    decreases n
  {
    if n > 0 {
      IncrementsIgnoreUntracked(t, key, n - 1);
    }
  }

  /** After `Delete` the key reads as the sentinel. */
  lemma DeleteUntracks(t: Speedy, key: string)
    ensures GetSpeedy(Delete(t, key), key) == Untracked
  {
  }

  /** `Init` is idempotent, and `ResetSpeedy` undoes any number of increments. */
  lemma InitIdempotentAndReset(t: Speedy, key: string, n: nat)
    ensures Init(Init(t, key), key) == Init(t, key)
    ensures GetSpeedy(ResetSpeedy(IncrementTimes(Init(t, key), key, n), key), key) == 0
  {
    IncrementsAddUp(Init(t, key), key, n);
  }

  /** A namespace object; owner references are left out. */
  datatype Namespace = Namespace(name: string)

  const ErrApplyNamespace := "cannot apply namespace"

  /** An error wrapped with a message prefix, as `errors.Wrap` renders it. */
  function Wrap(cause: Option<string>, message: string): (err: Option<string>)
    ensures err.None? <==> cause.None?
    ensures cause.Some? ==> err == Some(message + ": " + cause.value)
  {
    match cause
    case None => None
    case Some(c) => Some(message + ": " + c)
  }

  /** An organization owns the namespace named after it. */
  function OrganizationNamespace(o: OrganizationApi.Organization): (ns: Namespace)
    ensures ns.name == o.name
  {
    Namespace(o.name)
  }

  /** A deployment owns the namespace named namespace-name. */
  function DeploymentNamespace(d: DeploymentApi.Deployment): (ns: Namespace)
    ensures ns.name == d.namespace + "-" + d.name
    ensures |ns.name| == |d.namespace| + 1 + |d.name|
  {
    Namespace(d.namespace + "-" + d.name)
  }

  /** Dashes may occur in namespaces and names, so two deployments can claim the same namespace. */
  lemma DeploymentNamespacesCanCollide(d1: DeploymentApi.Deployment, d2: DeploymentApi.Deployment)
    requires d1.namespace == "a-b" && d1.name == "c"
    requires d2.namespace == "a" && d2.name == "b-c"
    ensures d1 != d2 && DeploymentNamespace(d1) == DeploymentNamespace(d2)
  {
  }

  /** The two requests the handler makes of the store for a namespace. */
  datatype NamespaceAction = Apply | Remove

  /** One namespace request: what was asked, of which namespace, and the wrapped
      failure if the store refused it. */
  datatype NamespaceCall = NamespaceCall(action: NamespaceAction, target: Namespace, err: Option<string>)

  /** Applying an organization's namespace, the one named after it; the store's
      failure comes back wrapped. */
  function CreateOrganizationNamespace(o: OrganizationApi.Organization, applyFailure: Option<string>)
    : (call: NamespaceCall)
    ensures call.action == Apply && call.target == OrganizationNamespace(o) && call.target.name == o.name
    ensures call.err.None? <==> applyFailure.None?
    ensures applyFailure.Some? ==> call.err == Some(ErrApplyNamespace + ": " + applyFailure.value)
  {
    NamespaceCall(Apply, OrganizationNamespace(o), Wrap(applyFailure, ErrApplyNamespace))
  }

  /** Deleting an organization's namespace; the failure is wrapped with the same
      "cannot apply namespace" message the create path uses. */
  function DeleteOrganizationNamespace(o: OrganizationApi.Organization, deleteFailure: Option<string>)
    : (call: NamespaceCall)
    ensures call.action == Remove && call.target == OrganizationNamespace(o) && call.target.name == o.name
    ensures call.err.None? <==> deleteFailure.None?
    ensures deleteFailure.Some? ==> call.err == Some(ErrApplyNamespace + ": " + deleteFailure.value)
  {
    NamespaceCall(Remove, OrganizationNamespace(o), Wrap(deleteFailure, ErrApplyNamespace))
  }

  /** Applying a deployment's namespace, named namespace-name; the store's
      failure comes back wrapped. */
  function CreateDeploymentNamespace(d: DeploymentApi.Deployment, applyFailure: Option<string>)
    : (call: NamespaceCall)
    ensures call.action == Apply && call.target == DeploymentNamespace(d)
    ensures call.target.name == d.namespace + "-" + d.name
    ensures call.err.None? <==> applyFailure.None?
    ensures applyFailure.Some? ==> call.err == Some(ErrApplyNamespace + ": " + applyFailure.value)
  {
    NamespaceCall(Apply, DeploymentNamespace(d), Wrap(applyFailure, ErrApplyNamespace))
  }

  /** Deleting a deployment's namespace; the failure is wrapped with the create
      path's message. */
  function DeleteDeploymentNamespace(d: DeploymentApi.Deployment, deleteFailure: Option<string>)
    : (call: NamespaceCall)
    ensures call.action == Remove && call.target == DeploymentNamespace(d)
    ensures call.target.name == d.namespace + "-" + d.name
    ensures call.err.None? <==> deleteFailure.None?
    ensures deleteFailure.Some? ==> call.err == Some(ErrApplyNamespace + ": " + deleteFailure.value)
  {
    NamespaceCall(Remove, DeploymentNamespace(d), Wrap(deleteFailure, ErrApplyNamespace))
  }
}
