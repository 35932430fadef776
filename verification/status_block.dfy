/** The resolved-state block that both resource kinds carry in their status
    (`NddrOrgDeployment` for a Deployment, `NddrOrganization` for an
    Organization; the two have the same shape). Every pointer of the Go struct
    is an `Option` here. */
module StatusBlock {
  import opened Wrappers
  import opened Registers

  /** The state pointer: the status and reason strings, each itself a pointer. */
  datatype State = State(status: Option<string>, reason: Option<string>)

  /** The status block: resolved register list, resolved strategy and state. */
  datatype Block = Block(register: seq<Register>, strategy: Option<Strategy>, state: Option<State>)

  /** The block the first initialisation allocates: no registers, an empty
      strategy, and empty status and reason strings. */
  const Fresh := Block([], Some(EmptyStrategy), Some(State(Some(""), Some(""))))

  /** The status and reason setters dereference the block and its state pointer. */
  predicate Writable(b: Option<Block>) {
    b.Some? && b.value.state.Some?
  }

  /** The guard of the status and state-register getters: block, state and status
      pointers are all set. */
  predicate Resolved(b: Option<Block>) {
    Writable(b) && b.value.state.value.status.Some?
  }

  function Status(b: Option<Block>): string {
    if Resolved(b) then b.value.state.value.status.value else "unknown"
  }

  /** The stored reason, or "" when there is none (the source has no getter for it). */
  function Reason(b: Option<Block>): string {
    if Writable(b) then ValueOrEmpty(b.value.state.value.reason) else ""
  }

  function StateRegister(b: Option<Block>): map<string, string> {
    if Resolved(b) then Flatten(b.value.register) else map[]
  }

  function StateStrategy(b: Option<Block>): Option<Strategy> {
    if b.Some? then b.value.strategy else Some(EmptyStrategy)
  }

  function WithStatus(b: Option<Block>, s: string): (r: Option<Block>)
    requires Writable(b)
  {
    Some(b.value.(state := Some(b.value.state.value.(status := Some(s)))))
  }

  function WithReason(b: Option<Block>, s: string): (r: Option<Block>)
    requires Writable(b)
  {
    Some(b.value.(state := Some(b.value.state.value.(reason := Some(s)))))
  }

  function WithStrategy(b: Option<Block>, a: Option<Strategy>): (r: Option<Block>)
    requires b.Some?
  {
    Some(b.value.(strategy := a))
  }

  /** Replaces the register list by an enumeration of `m`; strategy and state stay. */
  method WithRegister(b: Option<Block>, m: map<string, string>) returns (r: Option<Block>)
    requires b.Some?
    ensures r.Some? && Flatten(r.value.register) == m && |r.value.register| == |m|
    ensures r.value.strategy == b.value.strategy && r.value.state == b.value.state
  {
    var rs := Enumerate(m);
    r := Some(b.value.(register := rs));
  }
}
