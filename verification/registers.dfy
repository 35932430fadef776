/** Values shared by both resource kinds: register bindings, the address
    allocation strategy and the decoded hierarchical name. */
module Registers {
  import opened Wrappers

  /** One register binding: a logical subsystem kind ("ipam", "as", ...) bound to
      the name of a concrete backend instance. */
  datatype Register = Register(kind: string, name: string)

  /** The address allocation strategy. Its contents are not interpreted here: it is
      inherited or stored as a whole. */
  datatype Strategy = Strategy(settings: seq<(string, string)>)

  /** The value of a freshly allocated, empty strategy. */
  const EmptyStrategy := Strategy([])

  /** A hierarchical name decoded into its organization and deployment parts. The
      decoder itself belongs to an external library and is a parameter wherever
      it is needed. */
  datatype Odns = Odns(organization: string, deployment: string)

  type Decoder = string -> Odns

  /** Dereference of an optional string field, the empty string when unset. */
  function ValueOrEmpty(field: Option<string>): (s: string)
    ensures field.None? ==> s == ""
    ensures field.Some? ==> s == field.value
  {
    field.GetOr("")
  }

  /** The kinds bound anywhere in `rs`. */
  function Kinds(rs: seq<Register>): set<string> {
    set i | 0 <= i < |rs| :: rs[i].kind
  }

  /** No entry after index `i` binds the same kind as entry `i`. */
  predicate IsLastOfKind(rs: seq<Register>, i: int)
    requires 0 <= i < |rs|
  {
    forall j :: i < j < |rs| ==> rs[j].kind != rs[i].kind
  }

  /** A register list flattened into a kind -> name map, visiting entries in order
      so that a later entry for a kind overwrites an earlier one. */
  function Flatten(rs: seq<Register>): (m: map<string, string>)
    ensures m.Keys == Kinds(rs)
    decreases |rs|
  {
    if |rs| == 0 then map[]
    else
      var front := rs[..|rs| - 1];
      var last := rs[|rs| - 1];
      var m := Flatten(front)[last.kind := last.name];
      assert Kinds(rs) == Kinds(front) + {last.kind} by {
        forall k | k in Kinds(rs) ensures k in Kinds(front) + {last.kind} {
          var i :| 0 <= i < |rs| && rs[i].kind == k;
          if i < |front| { assert front[i] == rs[i]; }
        }
        forall k | k in Kinds(front) ensures k in Kinds(rs) {
          var i :| 0 <= i < |front| && front[i].kind == k;
          assert rs[i] == front[i];
        }
      }
      m
  }

  /** The name a kind is bound to is the name of the last entry binding it. */
  lemma {:induction false} FlattenLastWins(rs: seq<Register>, i: int)
    requires 0 <= i < |rs| && IsLastOfKind(rs, i)
    ensures rs[i].kind in Flatten(rs) && Flatten(rs)[rs[i].kind] == rs[i].name
    decreases |rs|
  {
    var front := rs[..|rs| - 1];
    if i < |front| {
      assert rs[i] == front[i];
      assert rs[i].kind != rs[|rs| - 1].kind;
      assert IsLastOfKind(front, i) by {
        forall j | i < j < |front| ensures front[j].kind != front[i].kind {
          assert front[j] == rs[j];
        }
      }
      FlattenLastWins(front, i);
    }
  }

  /** Appending an entry binds its kind to its name and leaves every other kind as it was. */
  lemma FlattenAppend(rs: seq<Register>, r: Register)
    ensures Flatten(rs + [r]) == Flatten(rs)[r.kind := r.name]
  {
    assert (rs + [r])[..|rs|] == rs;
  }

  /** Of two entries for the same kind, the later one wins. */
  lemma {:induction false} LaterEntryWins(rs: seq<Register>, kind: string, first: string, second: string)
    ensures Flatten(rs + [Register(kind, first), Register(kind, second)])[kind] == second
  {
    var all := rs + [Register(kind, first), Register(kind, second)];
    assert IsLastOfKind(all, |all| - 1);
  }

  /** A list that binds each kind at most once. */
  predicate DistinctKinds(rs: seq<Register>) {
    forall i, j :: 0 <= i < j < |rs| ==> rs[i].kind != rs[j].kind
  }

  /** A list of bindings enumerating `m`, one entry per key, in an order the
      caller cannot choose (Go's map iteration order). */
  method Enumerate(m: map<string, string>) returns (rs: seq<Register>)
    ensures Flatten(rs) == m
    ensures |rs| == |m|
    ensures DistinctKinds(rs)
  {
    rs := [];
    var rest := m;
    while rest != map[]
      invariant Kinds(rs) !! rest.Keys
      invariant Flatten(rs) + rest == m
      invariant |rs| + |rest| == |m|
      invariant DistinctKinds(rs)
      decreases |rest|
    {
      var k :| k in rest;
      var r := Register(k, rest[k]);
      FlattenAppend(rs, r);
      EnumerateStep(Flatten(rs), rest, m, k);
      AppendDistinct(rs, r);
      rs := rs + [r];
      rest := rest - {k};
    }
  }

  /** Moving one key from the pending map to the enumerated prefix keeps their union. */
  lemma EnumerateStep(done: map<string, string>, rest: map<string, string>, m: map<string, string>, k: string)
    requires done.Keys !! rest.Keys && done + rest == m && k in rest
    ensures done[k := rest[k]] + (rest - {k}) == m
    ensures done[k := rest[k]].Keys !! (rest - {k}).Keys
    ensures |rest - {k}| == |rest| - 1
  {
    assert (rest - {k}).Keys == rest.Keys - {k};
  }

  /** Appending a binding for a kind not yet bound keeps one entry per kind. */
  lemma AppendDistinct(rs: seq<Register>, r: Register)
    requires DistinctKinds(rs) && r.kind !in Kinds(rs)
    ensures DistinctKinds(rs + [r]) && Kinds(rs + [r]) == Kinds(rs) + {r.kind}
  {
    var all := rs + [r];
    forall i, j | 0 <= i < j < |all| ensures all[i].kind != all[j].kind {
      if j == |rs| { assert all[i] == rs[i]; }
    }
    FlattenAppend(rs, r);
  }
}
