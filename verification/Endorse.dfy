/** `transaction.Endorse`, and its agreement with `Merge`: organisations may endorse one
    after another, or separately and merge. */
module Endorse {
  import opened Wrappers
  import opened Sequences
  import opened Transactions
  import opened FirstWins
  import opened Merge
  import opened MergeLaws

  /** A signing identity: its serialized form, and a deterministic signing function.
      Either may fail. */
  datatype Signer = Signer(identity: Option<Identity>, sign: seq<bv8> -> Option<seq<bv8>>)

  /** The ASN.1 encoding of a namespace under a transaction ID, which may fail. */
  type Marshal = (Namespace, string) -> Option<seq<bv8>>

  datatype EndorseFailure =
    | NilTransaction
    | IdentityFailed
    | MarshalFailed(ns: nat)
    | SigningFailed(ns: nat)
    | EntryMissingPanic(ns: nat)

  type Entries = seq<seq<Endorsement>>

  /** The namespace can be encoded under this transaction ID, and the signer can sign that. */
  predicate CanSign(marshal: Marshal, signer: Signer, txID: string, ns: Namespace)
  {
    var msg := marshal(ns, txID);
    msg.Some? && signer.sign(msg.value).Some?
  }

  /** The endorsement holds the signer's signature over the encoding of this namespace under
      this transaction ID, and the signer's identity. */
  predicate SignedBy(marshal: Marshal, signer: Signer, txID: string, ns: Namespace, e: Endorsement)
  {
    var msg := marshal(ns, txID);
    msg.Some? && signer.sign(msg.value) == Some(e.signature) && e.identity == signer.identity
  }

  function Signature(marshal: Marshal, signer: Signer, txID: string, ns: Namespace): (e: Endorsement)
    requires CanSign(marshal, signer, txID, ns)
    ensures SignedBy(marshal, signer, txID, ns, e)
  {
    Endorsement(signer.sign(marshal(ns, txID).value).value, signer.identity)
  }

  /** The body of the loop of `Endorse`, up to the signature. */
  function SignNamespace(marshal: Marshal, signer: Signer, txID: string, namespaces: seq<Namespace>, ns: nat)
    : (r: Result<Endorsement, EndorseFailure>)
    requires ns < |namespaces|
    ensures r.Ok? <==> CanSign(marshal, signer, txID, namespaces[ns])
    ensures r.Ok? ==> SignedBy(marshal, signer, txID, namespaces[ns], r.value)
    ensures r == Err(MarshalFailed(ns)) <==> marshal(namespaces[ns], txID).None?
    ensures r.Err? ==> r.error == MarshalFailed(ns) || r.error == SigningFailed(ns)
  {
    var msg := marshal(namespaces[ns], txID);
    if msg.None? then Err(MarshalFailed(ns))
    else
      var signature := signer.sign(msg.value);
      if signature.None? then Err(SigningFailed(ns))
      else Ok(Endorsement(signature.value, signer.identity))
  }

  /** The loop of `Endorse` from namespace `ns` on. */
  function SignFrom(marshal: Marshal, signer: Signer, txID: string, namespaces: seq<Namespace>,
                    entries: Entries, ns: nat): Result<Entries, EndorseFailure>
    requires ns <= |namespaces|
    decreases |namespaces| - ns
  {
    if ns == |namespaces| then Ok(entries)
    else
      match SignNamespace(marshal, signer, txID, namespaces, ns)
      case Err(f) => Err(f)
      case Ok(e) =>
        if ns >= |entries| then Err(EntryMissingPanic(ns))
        else SignFrom(marshal, signer, txID, namespaces, entries[ns := entries[ns] + [e]], ns + 1)
  }

  /** One (empty) entry per namespace when the transaction has none yet. */
  function Prepared(tx: TxValue): Entries
  {
    if tx.endorsements == [] then seq(|tx.namespaces|, _ => []) else tx.endorsements
  }

  /** The meaning of `Endorse` on message contents. */
  function EndorseValue(marshal: Marshal, signer: Signer, txID: string, tx: TxContents)
    : Result<TxValue, EndorseFailure>
  {
    if tx.None? then Err(NilTransaction)
    else if signer.identity.None? then Err(IdentityFailed)
    else
      match SignFrom(marshal, signer, txID, tx.value.namespaces, Prepared(tx.value), 0)
      case Err(f) => Err(f)
      case Ok(entries) => Ok(TxValue(tx.value.namespaces, entries))
  }

  // ---------- on message objects, and what endorsing does ----------

  /** `proto.CloneOf` followed by allocating the entries, into a fresh array of lists. */
  method CopyEntries(tx: Tx) returns (entries: array<seq<Endorsement>>)
    ensures fresh(entries) && entries[..] == Prepared(old(tx.Value()))
  {
    if tx.endorsements == [] {
      entries := new seq<Endorsement>[|tx.namespaces|](_ => []);
      return;
    }
    ghost var items := ItemsOf(tx.endorsements);
    entries := new seq<Endorsement>[|tx.endorsements|](_ => []);
    for k := 0 to |tx.endorsements|
      invariant forall a :: 0 <= a < k ==> entries[a] == items[a]
    {
      assert items[k] == GetItems(tx.endorsements[k]);
      entries[k] := if tx.endorsements[k] == null then [] else tx.endorsements[k].items;
    }
    assert entries[..] == items;
  }

  /** Before the first of `n` namespaces that cannot be signed, or has no entry. */
  predicate ReachedAt(marshal: Marshal, signer: Signer, txID: string, tx: TxValue, n: nat)
  {
    && n < |tx.namespaces|
    && (tx.endorsements == [] || n <= |tx.endorsements|)
    && forall k :: 0 <= k < n ==> CanSign(marshal, signer, txID, tx.namespaces[k])
  }

  /** What each failure means. */
  predicate FailsWith(marshal: Marshal, signer: Signer, txID: string, tx: TxContents, f: EndorseFailure)
  {
    match f
    case NilTransaction => tx.None?
    case IdentityFailed => tx.Some? && signer.identity.None?
    case MarshalFailed(ns) =>
      && tx.Some? && signer.identity.Some? && ReachedAt(marshal, signer, txID, tx.value, ns)
      && marshal(tx.value.namespaces[ns], txID).None?
    case SigningFailed(ns) =>
      && tx.Some? && signer.identity.Some? && ReachedAt(marshal, signer, txID, tx.value, ns)
      && var msg := marshal(tx.value.namespaces[ns], txID);
         msg.Some? && signer.sign(msg.value).None?
    case EntryMissingPanic(ns) =>
      && tx.Some? && signer.identity.Some? && ReachedAt(marshal, signer, txID, tx.value, ns)
      && tx.value.endorsements != [] && ns == |tx.value.endorsements|
      && CanSign(marshal, signer, txID, tx.value.namespaces[ns])
  }

  /** Endorsing appends the signer's endorsement to the entry of every namespace. */
  ghost predicate Appends(marshal: Marshal, signer: Signer, txID: string, namespaces: seq<Namespace>,
                          before: Entries, after: Entries, ns: nat)
  {
    && |after| == |before|
    && |namespaces| <= |before|
    && (forall k :: 0 <= k < |before| && !(ns <= k < |namespaces|) ==> after[k] == before[k])
    && (forall k :: ns <= k < |namespaces| ==>
          && CanSign(marshal, signer, txID, namespaces[k])
          && after[k] == before[k] + [Signature(marshal, signer, txID, namespaces[k])])
  }

  lemma {:induction false} SignFromAppends(marshal: Marshal, signer: Signer, txID: string, namespaces: seq<Namespace>,
                                           entries: Entries, ns: nat)
    requires ns <= |namespaces| && (ns == |namespaces| ==> ns <= |entries|)
    ensures SignFrom(marshal, signer, txID, namespaces, entries, ns).Ok? ==>
              Appends(marshal, signer, txID, namespaces, entries,
                      SignFrom(marshal, signer, txID, namespaces, entries, ns).value, ns)
    ensures |namespaces| <= |entries| && (forall k :: ns <= k < |namespaces| ==>
              CanSign(marshal, signer, txID, namespaces[k])) ==>
              SignFrom(marshal, signer, txID, namespaces, entries, ns).Ok?
    decreases |namespaces| - ns
  {
    if ns < |namespaces| {
      var signed := SignNamespace(marshal, signer, txID, namespaces, ns);
      if signed.Ok? && ns < |entries| {
        SignFromAppends(marshal, signer, txID, namespaces, entries[ns := entries[ns] + [signed.value]], ns + 1);
      }
    }
  }

  /** Endorsing succeeds exactly when there is a transaction, the signer has an identity,
      each namespace has an entry, and each can be signed. */
  lemma EndorsesIff(marshal: Marshal, signer: Signer, txID: string, tx: TxContents)
    ensures EndorseValue(marshal, signer, txID, tx).Ok? <==>
              && tx.Some? && signer.identity.Some?
              && (tx.value.endorsements == [] || |tx.value.namespaces| <= |tx.value.endorsements|)
              && forall k :: 0 <= k < |tx.value.namespaces| ==>
                   CanSign(marshal, signer, txID, tx.value.namespaces[k])
  {
    if tx.Some? {
      SignFromAppends(marshal, signer, txID, tx.value.namespaces, Prepared(tx.value), 0);
    }
  }

  lemma {:induction false} SignFromFails(marshal: Marshal, signer: Signer, txID: string, tx: TxValue,
                                         entries: Entries, ns: nat)
    requires signer.identity.Some? && ns <= |tx.namespaces| && |entries| == |Prepared(tx)|
    requires ns < |tx.namespaces| ==> ReachedAt(marshal, signer, txID, tx, ns)
    ensures var r := SignFrom(marshal, signer, txID, tx.namespaces, entries, ns);
            r.Err? ==> FailsWith(marshal, signer, txID, Some(tx), r.error)
    decreases |tx.namespaces| - ns
  {
    if ns < |tx.namespaces| {
      var signed := SignNamespace(marshal, signer, txID, tx.namespaces, ns);
      if signed.Ok? && ns < |entries| {
        SignFromFails(marshal, signer, txID, tx, entries[ns := entries[ns] + [signed.value]], ns + 1);
      }
    }
  }

  lemma OneFailure(marshal: Marshal, signer: Signer, txID: string, tx: TxContents, f: EndorseFailure, g: EndorseFailure)
    requires FailsWith(marshal, signer, txID, tx, f) && FailsWith(marshal, signer, txID, tx, g)
    ensures f == g
  {
  }

  /** The failure reported is the first in the order of the source. */
  lemma EndorseFailsIff(marshal: Marshal, signer: Signer, txID: string, tx: TxContents, f: EndorseFailure)
    ensures EndorseValue(marshal, signer, txID, tx) == Err(f) <==> FailsWith(marshal, signer, txID, tx, f)
  {
    var r := EndorseValue(marshal, signer, txID, tx);
    EndorsesIff(marshal, signer, txID, tx);
    if r.Err? {
      if tx.Some? && signer.identity.Some? {
        SignFromFails(marshal, signer, txID, tx.value, Prepared(tx.value), 0);
      }
      if FailsWith(marshal, signer, txID, tx, f) {
        OneFailure(marshal, signer, txID, tx, f, r.error);
      }
    }
  }

  /** The entry of namespace `k` before endorsing. */
  function EntryOf(tx: TxValue, k: nat): seq<Endorsement>
  {
    if k < |tx.endorsements| then tx.endorsements[k] else []
  }

  /** `v` is `tx` with one endorsement by the signer at the end of the entry of each namespace,
      over that namespace; further entries are unchanged. */
  ghost predicate EndorsedBy(marshal: Marshal, signer: Signer, txID: string, tx: TxValue, v: TxValue)
  {
    && v.namespaces == tx.namespaces
    && |v.endorsements| == (if tx.endorsements == [] then |tx.namespaces| else |tx.endorsements|)
    && |tx.namespaces| <= |v.endorsements|
    && (forall k :: 0 <= k < |tx.namespaces| ==>
          exists e :: SignedBy(marshal, signer, txID, tx.namespaces[k], e) && v.endorsements[k] == EntryOf(tx, k) + [e])
    && (forall k :: |tx.namespaces| <= k < |tx.endorsements| ==> v.endorsements[k] == tx.endorsements[k])
  }

  /** What a successful endorsement produces. */
  lemma EndorseMeans(marshal: Marshal, signer: Signer, txID: string, tx: TxValue, v: TxValue)
    requires EndorseValue(marshal, signer, txID, Some(tx)) == Ok(v)
    ensures EndorsedBy(marshal, signer, txID, tx, v)
  {
    EndorsesIff(marshal, signer, txID, Some(tx));
    SignFromAppends(marshal, signer, txID, tx.namespaces, Prepared(tx), 0);
    forall k | 0 <= k < |tx.namespaces|
      ensures exists e :: SignedBy(marshal, signer, txID, tx.namespaces[k], e) &&
                v.endorsements[k] == EntryOf(tx, k) + [e]
    {
      var e := Signature(marshal, signer, txID, tx.namespaces[k]);
      assert v.endorsements[k] == EntryOf(tx, k) + [e];
    }
  }

  /** `Endorse` on message objects: the input is left alone, the result is new. */
  method EndorseTx(marshal: Marshal, signer: Signer, txID: string, tx: Tx?)
      returns (endorsed: Tx?, failure: Option<EndorseFailure>)
    ensures endorsed == null ==>
              failure.Some? && EndorseValue(marshal, signer, txID, old(Contents(tx))) == Err(failure.value)
    ensures endorsed != null ==>
              failure.None? && EndorseValue(marshal, signer, txID, old(Contents(tx))) == Ok(endorsed.Value())
    ensures endorsed == null ==> FailsWith(marshal, signer, txID, old(Contents(tx)), failure.value)
    ensures endorsed != null ==>
              tx != null && EndorsedBy(marshal, signer, txID, old(tx.Value()), endorsed.Value())
    ensures endorsed != null ==> fresh(endorsed) && fresh(Parts(endorsed))
  {
    forall f
      ensures EndorseValue(marshal, signer, txID, Contents(tx)) == Err(f) <==>
                FailsWith(marshal, signer, txID, Contents(tx), f)
    {
      EndorseFailsIff(marshal, signer, txID, Contents(tx), f);
    }
    if tx == null {
      return null, Some(NilTransaction);
    }
    var entries := CopyEntries(tx);
    if signer.identity.None? {
      return null, Some(IdentityFailed);
    }
    var namespaces := tx.namespaces;
    ghost var goal := SignFrom(marshal, signer, txID, namespaces, entries[..], 0);
    for ns := 0 to |namespaces|
      invariant goal == SignFrom(marshal, signer, txID, namespaces, entries[..], ns)
    {
      var msg := marshal(namespaces[ns], txID);
      if msg.None? {
        return null, Some(MarshalFailed(ns));
      }
      var signature := signer.sign(msg.value);
      if signature.None? {
        return null, Some(SigningFailed(ns));
      }
      var eid := Endorsement(signature.value, signer.identity);
      if ns >= entries.Length {
        return null, Some(EntryMissingPanic(ns));
      }
      ghost var before := entries[..];
      entries[ns] := entries[ns] + [eid];
      assert entries[..] == before[ns := before[ns] + [eid]];
    }
    ghost var v := TxValue(namespaces, entries[..]);
    EndorseMeans(marshal, signer, txID, tx.Value(), v);
    endorsed := Build(namespaces, entries[..]);
    failure := None;
  }

  // ---------- endorsing in turn ----------

  /** The endorsements of namespace `k` by several signers, in their order. */
  function Signatures(marshal: Marshal, signers: seq<Signer>, txID: string, namespaces: seq<Namespace>, k: nat)
    : (r: seq<Endorsement>)
    requires k < |namespaces|
    requires forall s :: s in signers ==> CanSign(marshal, s, txID, namespaces[k])
    ensures |r| == |signers|
    ensures forall i :: 0 <= i < |r| ==> r[i] == Signature(marshal, signers[i], txID, namespaces[k])
  {
    if signers == [] then []
    else [Signature(marshal, signers[0], txID, namespaces[k])]
         + Signatures(marshal, signers[1..], txID, namespaces, k)
  }

  /** The organisations endorse the transaction one after another. */
  function EndorseInTurn(marshal: Marshal, signers: seq<Signer>, txID: string, tx: TxValue)
    : Result<TxValue, EndorseFailure>
  {
    if signers == [] then Ok(tx)
    else
      match EndorseValue(marshal, signers[0], txID, Some(tx))
      case Err(f) => Err(f)
      case Ok(next) => EndorseInTurn(marshal, signers[1..], txID, next)
  }

  /** Every organisation endorses its own copy of the transaction. */
  function EndorseCopies(marshal: Marshal, signers: seq<Signer>, txID: string, tx: TxValue)
    : (copies: seq<TxContents>)
    requires forall s :: s in signers ==> EndorseValue(marshal, s, txID, Some(tx)).Ok?
    ensures |copies| == |signers|
    ensures forall i :: 0 <= i < |copies| ==> copies[i] == Some(EndorseValue(marshal, signers[i], txID, Some(tx)).value)
  {
    if signers == [] then []
    else [Some(EndorseValue(marshal, signers[0], txID, Some(tx)).value)]
         + EndorseCopies(marshal, signers[1..], txID, tx)
  }

  /** Every signer can sign every namespace, and there is an entry for each namespace; there
      may be more. */
  ghost predicate CanEndorse(marshal: Marshal, signers: seq<Signer>, txID: string, tx: TxValue)
  {
    && |tx.namespaces| <= |Prepared(tx)|
    && (forall s :: s in signers ==> s.identity.Some?)
    && (forall s, k :: s in signers && 0 <= k < |tx.namespaces| ==>
          CanSign(marshal, s, txID, tx.namespaces[k]))
  }

  lemma {:induction false} SignFromShort(marshal: Marshal, signer: Signer, txID: string, namespaces: seq<Namespace>,
                                         entries: Entries, ns: nat)
    requires ns <= |entries| < |namespaces|
    requires forall k :: ns <= k < |namespaces| ==> CanSign(marshal, signer, txID, namespaces[k])
    ensures SignFrom(marshal, signer, txID, namespaces, entries, ns) == Err(EntryMissingPanic(|entries|))
    decreases |namespaces| - ns
  {
    var signed := Signature(marshal, signer, txID, namespaces[ns]);
    if ns < |entries| {
      SignFromShort(marshal, signer, txID, namespaces, entries[ns := entries[ns] + [signed]], ns + 1);
    }
  }

  /** A signer that can sign everything fails exactly on transactions that carry entries, but
      fewer than namespaces: the loop indexes past the last one. */
  lemma EntryMissingIff(marshal: Marshal, signer: Signer, txID: string, tx: TxValue)
    requires signer.identity.Some?
    requires forall k :: 0 <= k < |tx.namespaces| ==> CanSign(marshal, signer, txID, tx.namespaces[k])
    ensures EndorseValue(marshal, signer, txID, Some(tx)) == Err(EntryMissingPanic(|tx.endorsements|)) <==>
              0 < |tx.endorsements| < |tx.namespaces|
    ensures EndorseValue(marshal, signer, txID, Some(tx)).Err? <==> 0 < |tx.endorsements| < |tx.namespaces|
  {
    EndorsesIff(marshal, signer, txID, Some(tx));
    if |Prepared(tx)| < |tx.namespaces| {
      SignFromShort(marshal, signer, txID, tx.namespaces, Prepared(tx), 0);
    }
  }

  /** Two namespaces and one entry: the second namespace has none. */
  lemma SecondEntryMissing(a: Namespace, b: Namespace, e: Endorsement, id: Identity, txID: string)
    ensures EndorseValue((_, _) => Some([]), Signer(Some(id), _ => Some([])), txID, Some(TxValue([a, b], [[e]])))
         == Err(EntryMissingPanic(1))
  {
    EntryMissingIff((_, _) => Some([]), Signer(Some(id), _ => Some([])), txID, TxValue([a, b], [[e]]));
  }

  /** One endorsement succeeds and appends one signature per namespace. */
  lemma EndorseOnce(marshal: Marshal, signer: Signer, txID: string, tx: TxValue)
    requires CanEndorse(marshal, [signer], txID, tx)
    ensures EndorseValue(marshal, signer, txID, Some(tx)).Ok?
    ensures Appends(marshal, signer, txID, tx.namespaces, Prepared(tx),
                    EndorseValue(marshal, signer, txID, Some(tx)).value.endorsements, 0)
  {
    assert signer in [signer];
    SignFromAppends(marshal, signer, txID, tx.namespaces, Prepared(tx), 0);
  }

  lemma RestCanEndorse(marshal: Marshal, signers: seq<Signer>, txID: string, tx: TxValue, next: TxValue)
    requires CanEndorse(marshal, signers, txID, tx) && signers != []
    requires next.namespaces == tx.namespaces && |Prepared(next)| == |Prepared(tx)|
    ensures CanEndorse(marshal, [signers[0]], txID, tx) && CanEndorse(marshal, signers[1..], txID, next)
  {
    assert signers[0] in signers;
    assert forall s :: s in signers[1..] ==> s in signers;
  }

  /** `v` is `tx` with the endorsements of these signers appended, in their order, to the
      entry of every namespace, and to no other entry. */
  ghost predicate Appended(marshal: Marshal, signers: seq<Signer>, txID: string, tx: TxValue, v: TxValue)
    requires CanEndorse(marshal, signers, txID, tx)
  {
    && v.namespaces == tx.namespaces
    && |Prepared(v)| == |Prepared(tx)|
    && (forall k :: 0 <= k < |tx.namespaces| ==>
          Prepared(v)[k] == Prepared(tx)[k] + Signatures(marshal, signers, txID, tx.namespaces, k))
    && (forall k :: |tx.namespaces| <= k < |Prepared(tx)| ==> Prepared(v)[k] == Prepared(tx)[k])
  }

  /** One organisation's turn. */
  lemma TurnAppends(marshal: Marshal, signer: Signer, txID: string, tx: TxValue)
    requires CanEndorse(marshal, [signer], txID, tx)
    ensures EndorseValue(marshal, signer, txID, Some(tx)).Ok?
    ensures Appended(marshal, [signer], txID, tx, EndorseValue(marshal, signer, txID, Some(tx)).value)
  {
    EndorseOnce(marshal, signer, txID, tx);
  }

  lemma SignaturesHead(marshal: Marshal, signers: seq<Signer>, txID: string, namespaces: seq<Namespace>, k: nat)
    requires k < |namespaces| && signers != []
    requires forall s :: s in signers ==> CanSign(marshal, s, txID, namespaces[k])
    ensures CanSign(marshal, signers[0], txID, namespaces[k])
    ensures Signatures(marshal, signers, txID, namespaces, k)
         == Signatures(marshal, [signers[0]], txID, namespaces, k)
            + Signatures(marshal, signers[1..], txID, namespaces, k)
  {
  }

  lemma AppendedEntry(marshal: Marshal, signers: seq<Signer>, txID: string, tx: TxValue, next: TxValue, v: TxValue,
                      k: nat)
    requires CanEndorse(marshal, signers, txID, tx) && signers != [] && k < |tx.namespaces|
    requires CanEndorse(marshal, [signers[0]], txID, tx) && Appended(marshal, [signers[0]], txID, tx, next)
    requires CanEndorse(marshal, signers[1..], txID, next) && Appended(marshal, signers[1..], txID, next, v)
    ensures Prepared(v)[k] == Prepared(tx)[k] + Signatures(marshal, signers, txID, tx.namespaces, k)
  {
    SignaturesHead(marshal, signers, txID, tx.namespaces, k);
    Reassociate(Prepared(tx)[k], Signatures(marshal, [signers[0]], txID, tx.namespaces, k),
                Signatures(marshal, signers[1..], txID, tx.namespaces, k));
  }

  lemma AppendedMore(marshal: Marshal, signers: seq<Signer>, txID: string, tx: TxValue, next: TxValue, v: TxValue)
    requires CanEndorse(marshal, signers, txID, tx) && signers != []
    requires CanEndorse(marshal, [signers[0]], txID, tx) && Appended(marshal, [signers[0]], txID, tx, next)
    requires CanEndorse(marshal, signers[1..], txID, next) && Appended(marshal, signers[1..], txID, next, v)
    ensures Appended(marshal, signers, txID, tx, v)
  {
    forall k: nat | k < |tx.namespaces|
      ensures Prepared(v)[k] == Prepared(tx)[k] + Signatures(marshal, signers, txID, tx.namespaces, k)
    {
      AppendedEntry(marshal, signers, txID, tx, next, v, k);
    }
  }

  /** Endorsing in turn appends the signers' endorsements in their order, to every entry. */
  lemma {:induction false} InTurnAppends(marshal: Marshal, signers: seq<Signer>, txID: string, tx: TxValue)
    requires CanEndorse(marshal, signers, txID, tx)
    ensures EndorseInTurn(marshal, signers, txID, tx).Ok?
    ensures Appended(marshal, signers, txID, tx, EndorseInTurn(marshal, signers, txID, tx).value)
  {
    if signers != [] {
      RestCanEndorse(marshal, signers, txID, tx, tx);
      TurnAppends(marshal, signers[0], txID, tx);
      var next := EndorseValue(marshal, signers[0], txID, Some(tx)).value;
      RestCanEndorse(marshal, signers, txID, tx, next);
      InTurnAppends(marshal, signers[1..], txID, next);
      AppendedMore(marshal, signers, txID, tx, next, EndorseInTurn(marshal, signers, txID, tx).value);
    }
  }

  // ---------- separate endorsement and merging ----------

  lemma EachCanEndorse(marshal: Marshal, signers: seq<Signer>, txID: string, tx: TxValue)
    requires CanEndorse(marshal, signers, txID, tx)
    ensures forall s :: s in signers ==> CanEndorse(marshal, [s], txID, tx)
    ensures forall s :: s in signers ==> EndorseValue(marshal, s, txID, Some(tx)).Ok?
  {
    forall s | s in signers
      ensures CanEndorse(marshal, [s], txID, tx) && EndorseValue(marshal, s, txID, Some(tx)).Ok?
    {
      EndorseOnce(marshal, s, txID, tx);
    }
  }

  /** Each signature after its own copy of `base`. */
  function Repeated(base: seq<Endorsement>, signatures: seq<Endorsement>): seq<Endorsement>
  {
    if signatures == [] then [] else base + [signatures[0]] + Repeated(base, signatures[1..])
  }

  lemma MapAlgebra<K, V>(r: map<K, V>, b: map<K, V>, h: map<K, V>)
    ensures (r + b) + (h + b) == (r + h) + b
  {
  }

  lemma {:induction false} RepeatedFirst(base: seq<Endorsement>, signatures: seq<Endorsement>)
    requires signatures != []
    ensures First(Repeated(base, signatures)) == First(signatures) + First(base)
  {
    var head, rest := [signatures[0]], signatures[1..];
    assert signatures == head + rest;
    FirstConcat(base, head);
    FirstConcat(head, rest);
    if rest == [] {
      assert Repeated(base, signatures) == base + head && signatures == head;
    } else {
      RepeatedFirst(base, rest);
      FirstConcat(base + head, Repeated(base, rest));
      MapAlgebra(First(rest), First(base), First(head));
    }
  }

  lemma SingleGather(tx: TxContents, k: nat)
    ensures Gather([tx], k) == Entry(tx, k)
  {
    assert [tx][..0] == [] && Gather([tx][..0], k) == [];
    assert [] + Entry(tx, k) == Entry(tx, k);
  }

  /** Namespace `k` of the separately endorsed copies. */
  lemma {:induction false} CopiesGather(marshal: Marshal, signers: seq<Signer>, txID: string, tx: TxValue, k: nat)
    requires CanEndorse(marshal, signers, txID, tx) && k < |tx.namespaces|
    requires forall s :: s in signers ==> EndorseValue(marshal, s, txID, Some(tx)).Ok?
    ensures Gather(EndorseCopies(marshal, signers, txID, tx), k)
         == Repeated(Prepared(tx)[k], Signatures(marshal, signers, txID, tx.namespaces, k))
  {
    if signers != [] {
      assert signers[0] in signers;
      EndorseOnce(marshal, signers[0], txID, tx);
      var copy := Some(EndorseValue(marshal, signers[0], txID, Some(tx)).value);
      var copies := EndorseCopies(marshal, signers[1..], txID, tx);
      assert EndorseCopies(marshal, signers, txID, tx) == [copy] + copies;
      RestCanEndorse(marshal, signers, txID, tx, tx);
      CopiesGather(marshal, signers[1..], txID, tx, k);
      GatherConcat([copy], copies, k);
      SingleGather(copy, k);
    }
  }

  /** For each namespace, the separately endorsed copies together have the same first
      endorsements as the entry endorsed in turn. */
  lemma CopiesFirst(marshal: Marshal, signers: seq<Signer>, txID: string, tx: TxValue, k: nat)
    requires CanEndorse(marshal, signers, txID, tx) && k < |tx.namespaces| && signers != []
    requires forall s :: s in signers ==> EndorseValue(marshal, s, txID, Some(tx)).Ok?
    ensures First(Gather(EndorseCopies(marshal, signers, txID, tx), k))
         == First(Signatures(marshal, signers, txID, tx.namespaces, k)) + First(Prepared(tx)[k])
  {
    CopiesGather(marshal, signers, txID, tx, k);
    RepeatedFirst(Prepared(tx)[k], Signatures(marshal, signers, txID, tx.namespaces, k));
  }

  /** No two of these organisations share an MSP ID. */
  ghost predicate DistinctOrgs(signers: seq<Signer>)
  {
    && (forall s :: s in signers ==> s.identity.Some?)
    && (forall i, j :: 0 <= i < j < |signers| ==>
          signers[i].identity.value.mspID != signers[j].identity.value.mspID)
  }

  lemma SignaturesMembers(marshal: Marshal, a: seq<Signer>, b: seq<Signer>, txID: string,
                          namespaces: seq<Namespace>, k: nat)
    requires k < |namespaces| && forall s :: s in a ==> s in b
    requires forall s :: s in b ==> CanSign(marshal, s, txID, namespaces[k])
    ensures forall e :: e in Signatures(marshal, a, txID, namespaces, k) ==>
                        e in Signatures(marshal, b, txID, namespaces, k)
  {
    var sa, sb := Signatures(marshal, a, txID, namespaces, k), Signatures(marshal, b, txID, namespaces, k);
    forall i | 0 <= i < |sa|
      ensures sa[i] in sb
    {
      assert a[i] in b;
      var j :| 0 <= j < |b| && b[j] == a[i];
      assert sb[j] == sa[i];
    }
  }

  lemma SignaturesDistinct(marshal: Marshal, a: seq<Signer>, txID: string, namespaces: seq<Namespace>, k: nat)
    requires DistinctOrgs(a) && k < |namespaces|
    requires forall s :: s in a ==> CanSign(marshal, s, txID, namespaces[k])
    ensures DistinctKeys(Signatures(marshal, a, txID, namespaces, k))
  {
    var r := Signatures(marshal, a, txID, namespaces, k);
    forall i | 0 <= i < |r|
      ensures r[i].identity.Some? && MspID(r[i]) == a[i].identity.value.mspID
    {
      assert a[i] in a;
    }
  }

  /** Distinct organisations contribute the same endorsements in any order. */
  lemma SignaturesAnyOrder(marshal: Marshal, a: seq<Signer>, b: seq<Signer>, txID: string,
                           namespaces: seq<Namespace>, k: nat)
    requires DistinctOrgs(a) && DistinctOrgs(b) && k < |namespaces|
    requires forall s :: s in a <==> s in b
    requires forall s :: s in a ==> CanSign(marshal, s, txID, namespaces[k])
    ensures First(Signatures(marshal, a, txID, namespaces, k)) == First(Signatures(marshal, b, txID, namespaces, k))
  {
    SignaturesMembers(marshal, a, b, txID, namespaces, k);
    SignaturesMembers(marshal, b, a, txID, namespaces, k);
    SignaturesDistinct(marshal, a, txID, namespaces, k);
    SignaturesDistinct(marshal, b, txID, namespaces, k);
    SameMembersSameFirst(Signatures(marshal, a, txID, namespaces, k), Signatures(marshal, b, txID, namespaces, k));
  }

  /** The endorsements already on the transaction carry identities. */
  ghost predicate IdentitiesPresent(tx: TxValue)
  {
    forall k, e :: 0 <= k < |tx.endorsements| && e in tx.endorsements[k] ==> e.identity.Some?
  }

  lemma CopiesAcceptable(marshal: Marshal, signers: seq<Signer>, txID: string, tx: TxValue, i: nat)
    requires CanEndorse(marshal, signers, txID, tx) && i < |signers|
    requires forall s :: s in signers ==> EndorseValue(marshal, s, txID, Some(tx)).Ok?
    ensures var copy := EndorseCopies(marshal, signers, txID, tx)[i];
            && copy.Some? && Namespaces(copy) == tx.namespaces && |Endorsements(copy)| == |Prepared(tx)|
            && (|Prepared(tx)| == |tx.namespaces| ==> Acceptable(tx.namespaces, copy))
  {
    assert signers[i] in signers;
    EndorseOnce(marshal, signers[i], txID, tx);
  }

  lemma AllPresent(s: seq<Endorsement>)
    requires forall i :: 0 <= i < |s| ==> s[i].identity.Some?
    ensures forall key :: key in First(s) ==> First(s)[key].identity.Some?
  {
    forall key | key in First(s)
      ensures First(s)[key].identity.Some?
    {
      FirstKeys(s, key);
    }
  }

  lemma CopiesPresent(marshal: Marshal, signers: seq<Signer>, txID: string, tx: TxValue, k: nat)
    requires CanEndorse(marshal, signers, txID, tx) && IdentitiesPresent(tx) && signers != []
    requires forall s :: s in signers ==> EndorseValue(marshal, s, txID, Some(tx)).Ok?
    requires k < |tx.namespaces|
    ensures !NilAmong(First(Gather(EndorseCopies(marshal, signers, txID, tx), k)))
  {
    var base, sigs := Prepared(tx)[k], Signatures(marshal, signers, txID, tx.namespaces, k);
    CopiesFirst(marshal, signers, txID, tx, k);
    AllPresent(base);
    forall i | 0 <= i < |sigs|
      ensures sigs[i].identity.Some?
    {
      assert signers[i] in signers;
    }
    AllPresent(sigs);
  }

  /** The copies merge exactly when the transaction has no entry without a namespace. */
  lemma CopiesMergeable(marshal: Marshal, signers: seq<Signer>, txID: string, tx: TxValue)
    requires CanEndorse(marshal, signers, txID, tx) && IdentitiesPresent(tx) && |signers| >= 2
    requires forall s :: s in signers ==> EndorseValue(marshal, s, txID, Some(tx)).Ok?
    ensures Mergeable(EndorseCopies(marshal, signers, txID, tx)) <==> |Prepared(tx)| == |tx.namespaces|
    ensures Namespaces(EndorseCopies(marshal, signers, txID, tx)[0]) == tx.namespaces
  {
    var copies := EndorseCopies(marshal, signers, txID, tx);
    EachCanEndorse(marshal, signers, txID, tx);
    forall i: nat | i < |copies|
      ensures copies[i].Some? && Namespaces(copies[i]) == tx.namespaces
      ensures |Endorsements(copies[i])| == |Prepared(tx)|
      ensures |Prepared(tx)| == |tx.namespaces| ==> Acceptable(tx.namespaces, copies[i])
    {
      CopiesAcceptable(marshal, signers, txID, tx, i);
    }
    forall k: nat | k < |tx.namespaces|
      ensures !NilAmong(First(Gather(copies, k)))
    {
      CopiesPresent(marshal, signers, txID, tx, k);
    }
    if |Prepared(tx)| > |tx.namespaces| {
      assert |Endorsements(copies[0])| > |Namespaces(copies[0])|;
    }
  }

  lemma DistinctFront(s: seq<Endorsement>)
    requires DistinctKeys(s) && s != []
    ensures DistinctKeys(s[..|s| - 1]) && !Has(s[..|s| - 1], MspID(s[|s| - 1]))
  {
  }

  lemma {:induction false} DedupDistinct(s: seq<Endorsement>)
    requires DistinctKeys(s)
    ensures Dedup(s) == s
  {
    if s != [] {
      DistinctFront(s);
      DedupDistinct(s[..|s| - 1]);
      SplitLast(s);
    }
  }

  /** Entry `k` of the merged copies, against that of the transaction endorsed in turn. */
  lemma MergedEntry(marshal: Marshal, turns: seq<Signer>, parallel: seq<Signer>, txID: string, tx: TxValue,
                    v: TxValue, k: nat)
    requires CanEndorse(marshal, turns, txID, tx) && CanEndorse(marshal, parallel, txID, tx) && parallel != []
    requires DistinctOrgs(turns) && DistinctOrgs(parallel) && forall s :: s in turns <==> s in parallel
    requires forall s :: s in parallel ==> EndorseValue(marshal, s, txID, Some(tx)).Ok?
    requires Appended(marshal, turns, txID, tx, v) && k < |tx.namespaces|
    ensures Canon(Gather(EndorseCopies(marshal, parallel, txID, tx), k)) == Canon(Prepared(v)[k])
    ensures DistinctKeys(Prepared(v)[k]) ==> IsSorting(Prepared(v)[k], Canon(Prepared(v)[k]))
  {
    CopiesFirst(marshal, parallel, txID, tx, k);
    SignaturesAnyOrder(marshal, turns, parallel, txID, tx.namespaces, k);
    FirstConcat(Prepared(tx)[k], Signatures(marshal, turns, txID, tx.namespaces, k));
    CanonDetermined(Gather(EndorseCopies(marshal, parallel, txID, tx), k), Prepared(v)[k]);
    if DistinctKeys(Prepared(v)[k]) {
      DedupDistinct(Prepared(v)[k]);
      SortIsSorting(Prepared(v)[k]);
    }
  }

  /** Endorsing in parallel agrees with endorsing in sequence: the copies endorsed by
      distinct organisations, merged in any order `parallel`, give the transaction endorsed
      one after another in any order `turns`, each entry deduplicated and sorted by MSP ID.
      When no organisation occurs twice in an entry, that is just the sorted entry. The merge
      succeeds exactly when the transaction has no entry without a namespace. */
  lemma ParallelIsSequential(marshal: Marshal, turns: seq<Signer>, parallel: seq<Signer>, txID: string, tx: TxValue)
    requires CanEndorse(marshal, turns, txID, tx) && IdentitiesPresent(tx)
    requires DistinctOrgs(turns) && DistinctOrgs(parallel) && |turns| >= 2
    requires forall s :: s in turns <==> s in parallel
    ensures EndorseInTurn(marshal, turns, txID, tx).Ok?
    ensures forall s :: s in parallel ==> EndorseValue(marshal, s, txID, Some(tx)).Ok?
    ensures var v := EndorseInTurn(marshal, turns, txID, tx).value;
            var merged := MergeValue(EndorseCopies(marshal, parallel, txID, tx));
            && v.namespaces == tx.namespaces
            && (merged.Ok? <==> |Prepared(tx)| == |tx.namespaces|)
            && (merged.Ok? ==>
                  && merged.value.namespaces == v.namespaces
                  && |merged.value.endorsements| == |Prepared(v)|
                  && forall k :: 0 <= k < |Prepared(v)| ==>
                       && merged.value.endorsements[k] == Canon(Prepared(v)[k])
                       && (DistinctKeys(Prepared(v)[k]) ==> IsSorting(Prepared(v)[k], merged.value.endorsements[k])))
  {
    assert turns[0] in parallel && turns[1] in parallel && turns[0] != turns[1];
    EachCanEndorse(marshal, parallel, txID, tx);
    InTurnAppends(marshal, turns, txID, tx);
    CopiesMergeable(marshal, parallel, txID, tx);
    var copies := EndorseCopies(marshal, parallel, txID, tx);
    SuccessIff(copies);
    if MergeValue(copies).Ok? {
      var v, merged := EndorseInTurn(marshal, turns, txID, tx).value, MergeValue(copies).value;
      SuccessValue(copies, merged);
      forall k: nat | k < |Prepared(v)|
        ensures merged.endorsements[k] == Canon(Prepared(v)[k])
        ensures DistinctKeys(Prepared(v)[k]) ==> IsSorting(Prepared(v)[k], merged.endorsements[k])
      {
        MergedEntry(marshal, turns, parallel, txID, tx, v, k);
      }
    }
  }
}
