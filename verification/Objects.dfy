/** Keys, stored objects and the conditional forms of SET. */
module Objects {
  type Key = string

  /** A stored object; `id` tells objects of the same key apart. */
  datatype Obj = Obj(key: Key, id: nat)

  /** `Always`, NX and XX. */
  datatype PutMode = Always | IfAbsent | IfPresent
}
