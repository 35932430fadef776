# nddr-org-registry, modelled in Dafny

The organization registry keeps a two-level hierarchy of network resources.
An **Organization** is the root. A **Deployment** belongs to one
organization. Each resource declares **registers** in its spec: bindings from
a register kind ("ipam", "as", "ni", "vlan", "esi", "rt") to the name of a
backend register. It may also declare an **address allocation strategy**.

Two controllers reconcile the resources:

- The Organization controller applies the organization's namespace. It then
  publishes the spec registers and strategy as the organization's resolved
  state and marks it "up".
- The Deployment controller finds the Deployment's organization among all
  organizations and marks the Deployment "up" or "down". An "up" Deployment's
  resolved registers are its own, with the organization's spec registers
  filling the kinds it does not bind.

A registry service answers other controllers' lookups:

- the resolved register map of a resource, refused unless it binds the three
  critical kinds ipam, as and ni;
- the resolved strategy of a resource;
- the endpoint of the backend service for a register kind, derived from the
  name of the first matching pod.

A shared handler keeps a per-resource retry-counter table ("speedy") and
builds the namespaces the resources own.

Modules, one per source concern:

| module | file | models |
|---|---|---|
| Wrappers | wrappers.dfy | `Option`, `Result` |
| Collections | collections.dfy | first match in a sequence (the source's `for … break` searches) |
| Text | text.dfy | `strings.Split`, `strings.Join`, `strings.Contains` and `strconv.Itoa` for one-character separators |
| Registers | registers.dfy | register bindings, strategy, the decoded hierarchical name, flattening a register list into a map |
| StatusBlock | status_block.dfy | the status block both resources share (register list, strategy, state) |
| DeploymentApi | deployment_api.dfy | the Deployment resource and its accessors |
| OrganizationApi | organization_api.dfy | the Organization resource and its accessors |
| Handler | handler.dfy | the counter table, the resource key, namespace building and apply/delete |
| Managed | managed.dfy | the object a controller receives (either kind) and the time unit |
| Registry | registry.dfy | the registry lookups |
| DeploymentReconciler | deployment_reconciler.dfy | the Deployment controller's callbacks |
| OrganizationReconciler | organization_reconciler.dfy | the Organization controller's callbacks |

The effects the source performs become inputs:

- Store reads are inputs: the organization list for the Deployment controller
  and a `Registry.Store` value for the registry.
- The outcome of applying or deleting a namespace is an `Option<string>`
  failure.
- The hierarchical-name decoder (`odns.Name2Odns`, another module) is a
  function parameter.
- The platform's service naming constants (service prefix, cluster DNS suffix,
  server port; another module) are the parameter `Registry.ServiceNaming`.
- A Go map's iteration order is unspecified. Loops over maps are therefore
  methods that pick the next key with `:|`, so every proof holds for any
  order.
- A nil-pointer dereference in the source is a panic, not an error path. The
  setters that dereference the status block therefore carry a `requires`.

The code behaves as follows where a reader might expect otherwise, and the model follows the code:

- A Deployment inherits from its organization's **spec** registers and
  strategy, not from the organization's resolved state
  (internal/controllers/deployment/reconciler.go:190-191).
- Neither controller checks for the critical registers when it stores a
  resolved map. Only the registry's lookup does
  (pkg/registry/registry.go:142-146). `Registry.IncompleteOrganizationRefused`
  exhibits the consequence.
- The Deployment controller lists organizations in all namespaces, not only
  the Deployment's own (internal/controllers/deployment/reconciler.go:178-179).
- The organization strategy is never the one a Deployment resolves to. The
  Deployment's own strategy getter never returns nil
  (`DeploymentReconciler.ParentStrategyNeverChosen`).
- A failure to apply an organization's namespace is swallowed: the
  Organization pass reports no error and leaves the resource untouched.
- The two registry lookups fetch a Deployment by different names. The
  register lookup uses the full hierarchical name
  (pkg/registry/registry.go:118-126). The strategy lookup uses the bare
  deployment part (pkg/registry/registry.go:153-157). `Registry.GetRegister`
  and `Registry.GetAddressAllocationStrategy` keep the difference.

## Model

| member | source | states |
|---|---|---|
| Collections.FirstWhere | internal/controllers/deployment/reconciler.go:186-194 | the index found is in range and satisfies the test, and no earlier element does; none is found exactly when no element satisfies it |
| Text.Split | pkg/registry/registry.go:215 | a split always has at least one piece and no piece contains the separator |
| Text.JoinSplit | pkg/registry/registry.go:215-221 | joining the pieces of a split with the same separator gives back the original string |
| Text.SplitJoin | pkg/registry/registry.go:215-221 | splitting a join of separator-free pieces gives back the pieces |
| Text.Contains | pkg/registry/registry.go:199 | true exactly when the fragment occurs at some index of the string |
| Text.Itoa | pkg/registry/registry.go:222 | the spelling is non-empty, all digits and has the number's decimal value; a spelling of two or more digits does not start with 0, so the spelling is unique |
| Registers.ValueOrEmpty | apis/org/v1alpha1/deployment_interfaces.go:144-170 | an unset optional string reads as "", a set one as its value |
| Registers.Flatten | apis/org/v1alpha1/deployment_interfaces.go:172-183 | the map's keys are exactly the kinds the list binds |
| Registers.FlattenLastWins | apis/org/v1alpha1/deployment_interfaces.go:177-181 | a kind maps to the name of the last entry that binds it |
| Registers.FlattenAppend | apis/org/v1alpha1/deployment_interfaces.go:177-181 | appending an entry rebinds its kind and leaves every other kind as it was |
| Registers.LaterEntryWins | apis/org/v1alpha1/deployment_interfaces.go:177-181 | of two entries for one kind, the later one's name is the one kept |
| Registers.Enumerate | apis/org/v1alpha1/deployment_interfaces.go:237-245 | the list built from a map, in any iteration order, flattens back to the same map and has one entry per key |
| StatusBlock.WithRegister | apis/org/v1alpha1/deployment_interfaces.go:237-245 | the new register list flattens to the map written, and the strategy and state are kept |
| DeploymentApi.DecodedName | apis/org/v1alpha1/deployment_interfaces.go:136-142 | the organization and deployment name getters together give the whole decoded resource name, and depend on nothing but that name |
| DeploymentApi.GetOrganizationName | apis/org/v1alpha1/deployment_interfaces.go:136-138 | the organization part of the decoded resource name, the decoded deployment part being the rest |
| DeploymentApi.GetDeploymentName | apis/org/v1alpha1/deployment_interfaces.go:140-142 | the deployment part of the decoded resource name; with the organization name getter it rebuilds the whole decoded name |
| DeploymentApi.GetAdminState | apis/org/v1alpha1/deployment_interfaces.go:144-149 | "" when the admin state is unset, the stored value otherwise |
| DeploymentApi.GetDescription | apis/org/v1alpha1/deployment_interfaces.go:151-156 | "" when the description is unset, the stored value otherwise |
| DeploymentApi.GetKind | apis/org/v1alpha1/deployment_interfaces.go:158-163 | "" when the kind is unset, the stored value otherwise |
| DeploymentApi.GetRegion | apis/org/v1alpha1/deployment_interfaces.go:165-170 | "" when the region is unset, the stored value otherwise |
| DeploymentApi.GetRegister | apis/org/v1alpha1/deployment_interfaces.go:172-183 | the keys are the kinds the spec list binds; an empty list gives the empty map; the last entry for a kind wins |
| DeploymentApi.GetAddressAllocationStrategy | apis/org/v1alpha1/deployment_interfaces.go:185-190 | never nil: the spec strategy when set, the empty strategy otherwise |
| DeploymentApi.InitializeResource | apis/org/v1alpha1/deployment_interfaces.go:192-208 | an existing status block is left as it is; a missing one is allocated with no registers, the empty strategy and status and reason "" |
| DeploymentApi.InitializeIdempotent | apis/org/v1alpha1/deployment_interfaces.go:192-197 | initialising twice is initialising once |
| DeploymentApi.SetStatus | apis/org/v1alpha1/deployment_interfaces.go:210-212 | the status reads back as the value written; reason, registers, strategy and spec are unchanged |
| DeploymentApi.SetReason | apis/org/v1alpha1/deployment_interfaces.go:214-216 | the reason is the value written; status, registers, strategy and spec are unchanged |
| DeploymentApi.GetStatus | apis/org/v1alpha1/deployment_interfaces.go:218-223 | "unknown" unless the block, its state and its status are all set, and then the stored status |
| DeploymentApi.GetStateRegister | apis/org/v1alpha1/deployment_interfaces.go:225-235 | empty unless the status is set, and then the flattened resolved list |
| DeploymentApi.SetStateRegister | apis/org/v1alpha1/deployment_interfaces.go:237-245 | the resolved list flattens to the map written, which reads back once the status is set; status, reason, strategy and spec are unchanged |
| DeploymentApi.GetStateAddressAllocationStrategy | apis/org/v1alpha1/deployment_interfaces.go:247-252 | the stored strategy, or the empty strategy when there is no block |
| DeploymentApi.SetStateAddressAllocationStrategy | apis/org/v1alpha1/deployment_interfaces.go:254-256 | the strategy reads back as the value written; status, reason, registers and spec are unchanged |
| OrganizationApi.GetOrganizationName | apis/org/v1alpha1/organization_interfaces.go:132-134 | an Organization's organization name is what any Deployment with the same resource name reads as its organization name |
| OrganizationApi.GetDescription | apis/org/v1alpha1/organization_interfaces.go:136-141 | "" when the description is unset, the stored value otherwise |
| OrganizationApi.GetRegister | apis/org/v1alpha1/organization_interfaces.go:143-154 | the keys are the kinds the spec list binds; an empty list gives the empty map; the last entry for a kind wins |
| OrganizationApi.GetAddressAllocationStrategy | apis/org/v1alpha1/organization_interfaces.go:156-161 | never nil: the spec strategy when set, the empty strategy otherwise |
| OrganizationApi.InitializeResource | apis/org/v1alpha1/organization_interfaces.go:163-179 | an existing status block is left as it is; a missing one is allocated with no registers, the empty strategy and status and reason "" |
| OrganizationApi.InitializeIdempotent | apis/org/v1alpha1/organization_interfaces.go:163-168 | initialising twice is initialising once |
| OrganizationApi.SetStatus | apis/org/v1alpha1/organization_interfaces.go:181-183 | the status reads back as the value written; reason, registers, strategy and spec are unchanged |
| OrganizationApi.SetReason | apis/org/v1alpha1/organization_interfaces.go:185-187 | the reason is the value written; status, registers, strategy and spec are unchanged |
| OrganizationApi.GetStatus | apis/org/v1alpha1/organization_interfaces.go:189-194 | "unknown" unless the block, its state and its status are all set, and then the stored status |
| OrganizationApi.GetStateRegister | apis/org/v1alpha1/organization_interfaces.go:196-206 | empty unless the status is set, and then the flattened resolved list |
| OrganizationApi.SetStateRegister | apis/org/v1alpha1/organization_interfaces.go:208-216 | the resolved list flattens to the map written, which reads back once the status is set; status, reason, strategy and spec are unchanged |
| OrganizationApi.GetStateAddressAllocationStrategy | apis/org/v1alpha1/organization_interfaces.go:218-223 | the stored strategy, or the empty strategy when there is no block |
| OrganizationApi.SetStateAddressAllocationStrategy | apis/org/v1alpha1/organization_interfaces.go:225-227 | the strategy reads back as the value written; status, reason, registers and spec are unchanged |
| Handler.CrName | internal/controllers/deployment/reconciler.go:100-102 | the key is the namespace, a dot, then the name |
| Handler.CrNameInjective | internal/controllers/organization/reconciler.go:85-87 | with dot-free namespaces, distinct resources get distinct keys |
| Handler.Init | internal/handler/handler.go:57-63 | a new key starts at 0, a tracked key keeps its count, and other keys are unchanged |
| Handler.Delete | internal/handler/handler.go:65-69 | the key is no longer tracked and the other keys keep their counts |
| Handler.ResetSpeedy | internal/handler/handler.go:71-77 | a tracked key goes back to 0, an untracked key stays untracked, and other keys are unchanged |
| Handler.GetSpeedy | internal/handler/handler.go:79-86 | a tracked key's count, 9999 for an untracked key |
| Handler.IncrementSpeedy | internal/handler/handler.go:88-94 | a tracked key's count rises by one, an untracked key stays untracked, and other keys are unchanged |
| Handler.IncrementsAddUp | internal/handler/handler.go:88-94 | n increments of a tracked key raise its count by n |
| Handler.InitThenIncrements | internal/handler/handler.go:57-63 | after tracking a new key, n increments read back as n |
| Handler.IncrementsIgnoreUntracked | internal/handler/handler.go:88-94 | incrementing an untracked key any number of times changes nothing |
| Handler.DeleteUntracks | internal/handler/handler.go:65-86 | after a delete the key reads as 9999 |
| Handler.InitIdempotentAndReset | internal/handler/handler.go:57-77 | a second Init does not reset a count; a reset does |
| Handler.Wrap | internal/handler/handler.go:98-100 | no cause gives no error; a cause gives the message, ": ", then the cause |
| Handler.OrganizationNamespace | internal/handler/handler.go:112-119 | an organization's namespace is named after the organization |
| Handler.DeploymentNamespace | internal/handler/handler.go:137-144 | a deployment's namespace is its namespace, a dash, then its name |
| Handler.DeploymentNamespacesCanCollide | internal/handler/handler.go:137-144 | two different deployments can be given the same namespace name |
| Handler.CreateOrganizationNamespace | internal/handler/handler.go:96-102 | applies the namespace named after the organization; an error exactly when the apply fails, wrapped with "cannot apply namespace" |
| Handler.DeleteOrganizationNamespace | internal/handler/handler.go:104-110 | deletes the namespace named after the organization; an error exactly when the delete fails, wrapped with the same "cannot apply namespace" message |
| Handler.CreateDeploymentNamespace | internal/handler/handler.go:121-127 | applies the namespace named namespace-name; an error exactly when the apply fails, wrapped with "cannot apply namespace" |
| Handler.DeleteDeploymentNamespace | internal/handler/handler.go:129-135 | deletes the namespace named namespace-name; an error exactly when the delete fails, wrapped with "cannot apply namespace" |
| Registry.KindString | pkg/registry/registry.go:54-70 | each declared kind names itself except esi, which names "epg"; any other kind is "unknown" |
| Registry.KindStringsDistinct | pkg/registry/registry.go:54-70 | the six declared kinds have six distinct names, none of them "unknown" |
| Registry.CheckCritical | pkg/registry/registry.go:112-116 | accepted exactly when ipam, as and ni are all bound, unchanged; otherwise the first missing one, in the order ipam, as, ni, is reported with the text "critical register <kind> not found in registry" |
| Registry.Message | pkg/registry/registry.go:144-206 | the critical-register, unknown-register and no-pod texts open with different letters, and each carries its kind, register name or pod fragment at a fixed place |
| Registry.CriticalMessageNamesKind | pkg/registry/registry.go:144 | two critical-register messages are equal only for the same kind |
| Registry.GetRegister | pkg/registry/registry.go:109-148 | a Deployment kind is read from the Deployments and any other kind from the Organizations; store failures pass through; the result is the resolved map after the critical check |
| Registry.IncompleteOrganizationRefused | pkg/registry/registry.go:140-146 | for any name kind other than a Deployment, a stored Organization is refused at lookup exactly when its resolved map lacks one of ipam, as and ni, with an error naming a missing kind ("ni" when ipam and as are bound) |
| Registry.GetAddressAllocationStrategy | pkg/registry/registry.go:150-172 | a non-empty deployment part selects that Deployment, otherwise the organization part selects the Organization; the result is its resolved strategy, and store failures pass through |
| Registry.ReconciledDeploymentStrategyServed | pkg/registry/registry.go:150-160 | a Deployment whose resolved strategy is the one the Deployment controller chose is served its own spec strategy, or the empty one, never nil and never its organization's |
| Registry.ReconciledOrganizationStrategyServed | pkg/registry/registry.go:162-171 | an Organization whose resolved strategy mirrors its spec, as the Organization controller stores it, is served its spec strategy or the empty one |
| Registry.ServedKinds | pkg/registry/registry.go:175-179 | only ipam, as and ni have a backend service |
| Registry.Stem | pkg/registry/registry.go:213-221 | a pod name with three or more tokens is the stem, a dash, then its last two tokens; with fewer it is the first token; the stem is always a prefix of the pod name |
| Registry.StemOfTokens | pkg/registry/registry.go:213-221 | for a name made of dash-free tokens, the stem is all but the last two tokens (at least one), joined by dashes |
| Registry.GrpcServerName | pkg/registry/registry.go:213-223 | the token walk gives the service prefix, a dash, the stem, a dot, the DNS suffix and the port's decimal spelling |
| Registry.GetRegistryClient | pkg/registry/registry.go:174-211 | a kind without a service is refused with "wrong register request, name not found: <name>"; a listing failure passes through; otherwise the first pod, in list order, whose name contains the service fragment gives the endpoint, and no such pod is the error "no pod that matches <name>, <fragment>" |
| DeploymentReconciler.Inherited | internal/controllers/deployment/reconciler.go:221-228 | the keys are the organization's and the Deployment's kinds; a Deployment binding wins; an organization binding fills any gap |
| DeploymentReconciler.InheritIdempotent | internal/controllers/deployment/reconciler.go:221-228 | inheriting again from the same organization changes nothing |
| DeploymentReconciler.IpamOverride | internal/controllers/deployment/reconciler.go:221-228 | for any organization binding ipam, as and ni, a Deployment overriding only ipam resolves to its own ipam pool and the organization's as, ni and every other binding, with no new kind |
| DeploymentReconciler.GetDeploymentRegister | internal/controllers/deployment/reconciler.go:221-228 | the map-walking loop, in any iteration order, yields the inherited map |
| DeploymentReconciler.GetDeploymentAddressAllocationStrategy | internal/controllers/deployment/reconciler.go:230-235 | the Deployment's strategy when set, otherwise the organization's |
| DeploymentReconciler.ParentStrategyNeverChosen | internal/controllers/deployment/reconciler.go:215 | given the Deployment's strategy getter, the organization's strategy is never the one chosen |
| DeploymentReconciler.FindOrganization | internal/controllers/deployment/reconciler.go:183-194 | the first organization, in list order, whose decoded organization name equals the Deployment's; none exactly when no organization matches; an organization bearing the Deployment's own resource name is always found, at its position or earlier |
| DeploymentReconciler.Initialize | internal/controllers/deployment/reconciler.go:104-116 | a Deployment keeps its namespace, name and spec and gets a fresh status block (no resolved registers, the empty strategy, empty status and reason), an existing block being left alone; any other object is refused |
| DeploymentReconciler.InitializeIdempotent | internal/controllers/deployment/reconciler.go:104-116 | initialising the result again changes nothing |
| DeploymentReconciler.HandleAppLogic | internal/controllers/deployment/reconciler.go:170-219 | the counter entry is created first; a listing failure returns the error and changes nothing else; organization not found gives "down" with an error and an empty register map; admin-disabled gives "down" with no error; otherwise "up" with the inherited registers and the chosen strategy; namespace, name and spec are kept, and labels are nil exactly on an error |
| DeploymentReconciler.Update | internal/controllers/deployment/reconciler.go:118-125 | any other object is refused and changes nothing; a Deployment gets every outcome of one pass (`DeploymentReconciler.PassOutcome`: identity and spec kept, unchanged on a listing failure, the reason, the resolved registers and strategy, and the labels); it ends "up" exactly when its organization is found and it is not disabled, and an error comes back exactly when the listing fails or the organization is missing |
| DeploymentReconciler.Timeout | internal/controllers/deployment/reconciler.go:130-148 | always one minute |
| DeploymentReconciler.Delete | internal/controllers/deployment/reconciler.go:150-159 | always finalisable; no error for a Deployment, "unexpected deployment object" for anything else |
| DeploymentReconciler.FinalDelete | internal/controllers/deployment/reconciler.go:161-168 | a Deployment's counter entry is removed and reads 9999, and every other entry is kept; any other object changes nothing |
| OrganizationReconciler.Initialize | internal/controllers/organization/reconciler.go:89-101 | an Organization keeps its namespace, name and spec and gets a fresh status block (no resolved registers, the empty strategy, empty status and reason), an existing block being left alone; any other object is refused |
| OrganizationReconciler.InitializeIdempotent | internal/controllers/organization/reconciler.go:89-101 | initialising the result again changes nothing |
| OrganizationReconciler.HandleAppLogic | internal/controllers/organization/reconciler.go:155-174 | the counter entry is created first, then the namespace named after the Organization is applied; no error is ever returned; a failed apply leaves the Organization unchanged; otherwise it is "up" with reason "" and its resolved registers and strategy equal its spec's; namespace, name and spec are kept and the labels are always empty |
| OrganizationReconciler.Update | internal/controllers/organization/reconciler.go:103-110 | any other object is refused, changes nothing and applies no namespace; an Organization gets every outcome of one pass (`OrganizationReconciler.PassOutcome`: identity and spec kept, empty labels, untouched on a failed apply, otherwise "up" with reason "" and its spec's registers and strategy); its namespace is applied, it never yields an error, and one not yet "up" ends "up" exactly when its namespace could be applied |
| OrganizationReconciler.Timeout | internal/controllers/organization/reconciler.go:115-133 | always one minute |
| OrganizationReconciler.Delete | internal/controllers/organization/reconciler.go:135-144 | always finalisable; the namespace named after the Organization is deleted, with an error exactly when that fails, wrapped; anything else deletes nothing and gets "unexpected organization object" |
| OrganizationReconciler.FinalDelete | internal/controllers/organization/reconciler.go:146-153 | as written: an Organization leaves the counter table unchanged, and only a Deployment's entry would be removed |
| OrganizationReconciler.FinalDeleteKeepsOrganizationCounter | internal/controllers/organization/reconciler.go:146-161 | the counter entry a pass creates for an Organization survives its final deletion |
| OrganizationReconciler.FinalDeleteIntended | internal/controllers/organization/reconciler.go:146-153 | corrected: a deleted Organization's entry is removed and reads 9999, and every other entry is kept |
| OrganizationReconciler.FinalDeleteIntendedUntracks | internal/controllers/organization/reconciler.go:146-161 | with the correction, a pass followed by final deletion leaves the table as before, without the Organization's key |

## Left out

- Controller setup and watch wiring (`Setup` in both reconcilers): framework registration, with no logic of its own.
- `FinalUpdate`: both controllers leave it empty.
- The fast-retry ladder in both `Timeout`s: it is commented out, so the model returns the constant minute.
- The dial in `getResourceClient` (pkg/registry/registry.go:225-238): it opens a network connection. `Registry.GetRegistryClient` returns the endpoint it would dial.
- The mutex around the counter table: every handler operation is one atomic step on an immutable map, and concurrency is not modelled.
- The condition, health, deletion-policy, deployment-policy, target-reference and root-path accessors, and the list accessors `GetDeployments`/`GetOrganizations`: plain field access outside the resolution logic.
- Owner references on the built namespaces: object metadata with no effect on the modelled behaviour.
- The decoder `odns.Name2Odns` and `GetFullOdaName` are not part of this model. They are a function parameter and an explicit (name, kind) input.
- The platform constants `PrefixGnmiService`, `NamespaceLocalK8sDNS` and `GnmiServerPort` are not part of this model. They are the `ServiceNaming` parameter.
- The commented-out `GetRegisterName` in the registry: it is not compiled.
- A nil element in a register list: the model's lists hold values, not pointers.
- A register entry's own `GetRegister` (another module): each entry is modelled as one kind/name binding.
- Go strings are byte sequences, while a Dafny `string` is a sequence of Unicode characters: `Text.Split`, `Text.Contains` and the lengths in `Handler.CrName` count characters rather than bytes. The two agree on the ASCII names Kubernetes resources carry.
- Handler.IncrementSpeedy: does not model Go's `int` wrap-around, because the count would have to pass 2^63 - 1.
- Logging, events and the managed-resource framework's own status updates: they have no effect on the returned values.

## Findings

| source | as written | input that shows it | evidently intended | confidence | as-written member | corrected member |
|---|---|---|---|---|---|---|
| internal/controllers/organization/reconciler.go:146-153 | the Organization controller's `FinalDelete` asserts the object is a `*Deployment`, so for an Organization it returns without touching the counter table | any Organization that has been reconciled once and is then deleted: its key stays in the table with its count | remove the deleted Organization's counter entry, as the Deployment controller does for Deployments | not executed | OrganizationReconciler.FinalDeleteKeepsOrganizationCounter | OrganizationReconciler.FinalDeleteIntendedUntracks |
