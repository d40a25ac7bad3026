/** Entity metadata and instances: what the session reads of a mapped type and of one of its objects. */
module Entities {
  import opened Values

  /** The identity of one instance: the pointer the caller holds. */
  type Ptr = nat

  type TypeId = nat

  datatype KeyStrategy = Natural | ClientGuid | DatabaseGenerated

  datatype Prop =
    | KeyPart(part: nat)
    | Column(col: nat)
    | VersionColumn
    | CreatedAt
    | UpdatedAt
    | SoftDelete

  datatype RelationKind = ManyToOne | OneToOne | OneToMany | ManyToMany

  datatype Relationship = Relationship(
    kind: RelationKind,
    target: TypeId,
    foreignKeys: seq<Prop>,
    cascadePersist: bool,
    cascadeRemove: bool)

  datatype EntityMap = EntityMap(
    isTable: bool,
    strategy: KeyStrategy,
    arity: nat,
    columns: nat,
    generated: set<nat>,
    versioned: bool,
    createdAt: bool,
    updatedAt: bool,
    softDelete: bool,
    relationships: seq<Relationship>)

  /** An instance's mapped values. A field its type does not map is never written. */
  datatype Inst = Inst(key: Key, version: int, created: Val, updated: Val, flag: Val, cols: seq<Val>)

  const BLANK := Inst([], 0, Null, Null, Null, [])

  function Get(x: Inst, p: Prop): Val {
    match p
    case KeyPart(i) => if i < |x.key| then x.key[i] else Null
    case Column(i) => if i < |x.cols| then x.cols[i] else Null
    case VersionColumn => Num(x.version)
    case CreatedAt => x.created
    case UpdatedAt => x.updated
    case SoftDelete => x.flag
  }

  function Set(x: Inst, p: Prop, v: Val): Inst {
    match p
    case KeyPart(i) => if i < |x.key| then x.(key := x.key[i := v]) else x
    case Column(i) => if i < |x.cols| then x.(cols := x.cols[i := v]) else x
    case VersionColumn => if v.Num? then x.(version := v.n) else x
    case CreatedAt => x.(created := v)
    case UpdatedAt => x.(updated := v)
    case SoftDelete => x.(flag := v)
  }

  /** Null, or the zero value of a key the library or the database generates; a natural zero is a key. */
  predicate UnsetKeyPart(m: EntityMap, v: Val) {
    v == Null || (m.strategy != Natural && IsZero(v))
  }

  predicate SetKey(m: EntityMap, key: Key) {
    key != [] && forall i :: 0 <= i < |key| ==> !UnsetKeyPart(m, key[i])
  }
}
