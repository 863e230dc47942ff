/**
 * The filesystem as the walk sees it. Each directory is what one listing of it
 * yields: nothing at all when it cannot be opened, otherwise its entries in the
 * platform's enumeration order. An entry carries its name, a platform-specific
 * kind `K`, and what a listing of the entry itself would yield. A tree is finite
 * and acyclic by construction; the sizes below give the walk its termination
 * measure.
 */
module FileTree {
  datatype Dir<K> = Unopenable | Opened(entries: seq<Entry<K>>)

  datatype Entry<K> = Entry(name: string, kind: K, sub: Dir<K>)

  /** Number of directory listings in a tree, counting an unopenable one as one. */
  function Size<K>(d: Dir<K>): (n: nat)
    ensures n >= 1
    decreases d
  {
    match d
    case Unopenable => 1
    case Opened(es) => 1 + SizeEntries(es)
  }

  function SizeEntries<K>(es: seq<Entry<K>>): nat
    decreases es
  {
    if es == [] then 0 else Size(es[0].sub) + SizeEntries(es[1..])
  }
}
