/** Application transactions: the protobuf messages as values, and the mutable
    message objects that the Go code passes around by pointer. */
module Transactions {
  import opened Wrappers

  datatype Identity = Identity(mspID: string, certificate: seq<bv8>)

  /** An endorsement with identity; the identity pointer may be nil. */
  datatype Endorsement = Endorsement(signature: seq<bv8>, identity: Option<Identity>)

  /** `e.GetIdentity().GetMspId()`: the getters turn a nil identity into "". */
  function MspID(e: Endorsement): string
  {
    if e.identity.Some? then e.identity.value.mspID else ""
  }

  /** A versioned write; the version is absent when a key is created. */
  datatype ReadWrite = ReadWrite(key: string, value: seq<bv8>, version: Option<nat>)

  datatype Namespace = Namespace(nsID: string, nsVersion: nat, readWrites: seq<ReadWrite>)

  /** The contents of a transaction message; `endorsements[k]` belongs to namespace `k`. */
  datatype TxValue = TxValue(namespaces: seq<Namespace>, endorsements: seq<seq<Endorsement>>)

  /** The `Endorsements` message of one namespace. */
  class EndorsementSet {
    var items: seq<Endorsement>

    constructor (items: seq<Endorsement>)
      ensures this.items == items
    {
      this.items := items;
    }
  }

  /** `ns.GetEndorsementsWithIdentity()`: a nil entry reads as an empty one. */
  function GetItems(s: EndorsementSet?): seq<Endorsement>
    reads s
  {
    if s == null then [] else s.items
  }

  ghost function ItemsOf(sets: seq<EndorsementSet?>): (r: seq<seq<Endorsement>>)
    reads set e: EndorsementSet? | e in sets :: e
    ensures |r| == |sets|
    ensures forall k :: 0 <= k < |sets| ==> r[k] == GetItems(sets[k])
    decreases |sets|
  {
    if sets == [] then []
    else
      assert sets[0] in sets;
      assert forall e :: e in sets[1..] ==> e in sets;
      [GetItems(sets[0])] + ItemsOf(sets[1..])
  }

  /** The `Tx` message; entries of `endorsements` may be nil. */
  class Tx {
    var namespaces: seq<Namespace>
    var endorsements: seq<EndorsementSet?>

    constructor (namespaces: seq<Namespace>, endorsements: seq<EndorsementSet?>)
      ensures this.namespaces == namespaces && this.endorsements == endorsements
    {
      this.namespaces := namespaces;
      this.endorsements := endorsements;
    }

    /** What the getters let a reader see of this message. */
    ghost function Value(): TxValue
      reads this, set e: EndorsementSet? | e in endorsements :: e
    {
      TxValue(namespaces, ItemsOf(endorsements))
    }
  }

  /** The objects a possibly nil transaction pointer leads to. */
  ghost function Parts(tx: Tx?): set<object?>
    reads tx
  {
    if tx == null then {} else {tx} + set e: EndorsementSet? | e in tx.endorsements :: e
  }

  /** The contents behind a possibly nil transaction pointer. */
  ghost function Contents(tx: Tx?): Option<TxValue>
    reads tx, Parts(tx)
  {
    if tx == null then None else Some(tx.Value())
  }

  ghost function AllContents(txs: seq<Tx?>): (r: seq<Option<TxValue>>)
    reads txs, set t: Tx?, o | t in txs && o in Parts(t) :: o
    ensures |r| == |txs|
    ensures forall i :: 0 <= i < |txs| ==> r[i] == Contents(txs[i])
  {
    if txs == [] then [] else [Contents(txs[0])] + AllContents(txs[1..])
  }

  /** A fresh transaction with the given contents. */
  method Build(namespaces: seq<Namespace>, lists: seq<seq<Endorsement>>) returns (tx: Tx)
    ensures fresh(tx) && fresh(Parts(tx))
    ensures tx.Value() == TxValue(namespaces, lists)
  {
    var sets: seq<EndorsementSet?> := [];
    for k := 0 to |lists|
      invariant |sets| == k
      invariant forall a :: 0 <= a < k ==> sets[a] != null && fresh(sets[a]) && sets[a].items == lists[a]
    {
      var m := new EndorsementSet(lists[k]);
      sets := sets + [m];
    }
    tx := new Tx(namespaces, sets);
    assert ItemsOf(tx.endorsements) == lists;
  }
}
