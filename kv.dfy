/**
 * The chain state as the root contract sees it: one key/value store holding
 * the well-known scalar variables and the elements of the two maps the root
 * contract keeps, the contract registry and the deploy-authorisation list.
 * Each map lives under its own namespace, so no element key of one can
 * collide with a scalar variable or with an element of the other.
 */
module KV {
  import opened Wrappers

  newtype byte = b: int | 0 <= b < 256
  type Bytes = seq<byte>

  /** Call parameters: a dictionary from byte keys to byte values. */
  type Dict = map<Bytes, Bytes>

  /** The scalar variables of the root contract's state. */
  datatype Var =
    | VarChainID
    | VarChainOwnerID
    | VarChainColor
    | VarChainAddress
    | VarDescription
    | VarFeeColor
    | VarDefaultOwnerFee
    | VarDefaultValidatorFee

  /** The two maps the root contract keeps in its state. */
  datatype MapName = VarContractRegistry | VarDeployAuthorisations

  datatype Key = Scalar(v: Var) | Elem(name: MapName, elem: Bytes)

  type State = map<Key, Bytes>

  /** Reading a scalar variable: None (nil) when it was never set. */
  function MustGet(s: State, v: Var): Option<Bytes> {
    if Scalar(v) in s then Some(s[Scalar(v)]) else None
  }

  function HasAt(s: State, name: MapName, k: Bytes): bool {
    Elem(name, k) in s
  }

  function GetAt(s: State, name: MapName, k: Bytes): Option<Bytes> {
    if Elem(name, k) in s then Some(s[Elem(name, k)]) else None
  }

  function SetAt(s: State, name: MapName, k: Bytes, v: Bytes): State {
    s[Elem(name, k) := v]
  }

  function DelAt(s: State, name: MapName, k: Bytes): State {
    s - {Elem(name, k)}
  }

  /** The elements of one named map, keyed by element key. */
  function MustMap(s: State, name: MapName): (m: map<Bytes, Bytes>)
    ensures forall k :: k in m <==> Elem(name, k) in s
    ensures forall k :: k in m ==> m[k] == s[Elem(name, k)]
  {
    map key | key in s && key.Elem? && key.name == name :: key.elem := s[key]
  }

  /** Deleting an element that was just added to a map that lacked it restores the store exactly. */
  lemma DelAtUndoesSetAt(s: State, name: MapName, k: Bytes, v: Bytes)
    requires !HasAt(s, name, k)
    ensures DelAt(SetAt(s, name, k, v), name, k) == s
  {
    assert DelAt(SetAt(s, name, k, v), name, k).Keys == s.Keys;
  }

  /** Setting an element changes that map at that key and nothing else in it. */
  lemma SetAtUpdatesItsMap(s: State, name: MapName, k: Bytes, v: Bytes)
    ensures MustMap(SetAt(s, name, k, v), name) == MustMap(s, name)[k := v]
  {
    var after, before := MustMap(SetAt(s, name, k, v), name), MustMap(s, name)[k := v];
    assert after.Keys == before.Keys;
    forall e | e in after ensures after[e] == before[e] {
      if e != k {
        assert Elem(name, e) != Elem(name, k);
      }
    }
  }

  /** Setting an element of one map leaves the other map unchanged. */
  lemma SetAtKeepsOtherMap(s: State, name: MapName, other: MapName, k: Bytes, v: Bytes)
    requires other != name
    ensures MustMap(SetAt(s, name, k, v), other) == MustMap(s, other)
  {
    var after, before := MustMap(SetAt(s, name, k, v), other), MustMap(s, other);
    assert after.Keys == before.Keys;
  }
}
