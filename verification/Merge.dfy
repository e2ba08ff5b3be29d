/** `transaction.Merge`: its meaning on message contents, and the loops that compute it. */
module Merge {
  import opened Wrappers
  import opened Transactions
  import opened FirstWins

  /** Error returns, and the two runtime panics that malformed messages provoke. */
  datatype Failure =
    | TooFewTransactions
    | NamespaceCountMismatch(tx: nat)
    | NamespaceContentMismatch(tx: nat, ns: nat)
    | MissingEndorsement(tx: nat, ns: nat)
    | CloneFailed
    | IndexOutOfRangePanic
    | NilIdentityPanic

  type TxContents = Option<TxValue>

  function Namespaces(tx: TxContents): seq<Namespace>
  {
    if tx.Some? then tx.value.namespaces else []
  }

  function Endorsements(tx: TxContents): seq<seq<Endorsement>>
  {
    if tx.Some? then tx.value.endorsements else []
  }

  /** The endorsements of namespace `k`; none when the transaction has no such entry. */
  function Entry(tx: TxContents, k: nat): seq<Endorsement>
  {
    if k < |Endorsements(tx)| then Endorsements(tx)[k] else []
  }

  /** All endorsements of namespace `k`, over the transactions in order. */
  function Gather(txs: seq<TxContents>, k: nat): seq<Endorsement>
  {
    if txs == [] then [] else Gather(txs[..|txs| - 1], k) + Entry(txs[|txs| - 1], k)
  }

  /** The first index from `k` on at which a content comparison fails. */
  function ContentMismatch(base: seq<Namespace>, other: seq<Namespace>, i: nat, k: nat): Option<Failure>
    requires |base| == |other| && k <= |base|
    decreases |base| - k
  {
    if k == |base| then None
    else if base[k] != other[k] then Some(NamespaceContentMismatch(i, k))
    else ContentMismatch(base, other, i, k + 1)
  }

  function EmptyEntry(entries: seq<seq<Endorsement>>, i: nat, k: nat): Option<Failure>
    requires k <= |entries|
    decreases |entries| - k
  {
    if k == |entries| then None
    else if entries[k] == [] then Some(MissingEndorsement(i, k))
    else EmptyEntry(entries, i, k + 1)
  }

  function CheckOne(base: seq<Namespace>, tx: TxContents, i: nat): Option<Failure>
  {
    if |Namespaces(tx)| != |base| then Some(NamespaceCountMismatch(i))
    else
      var mismatch := ContentMismatch(base, Namespaces(tx), i, 0);
      if mismatch.Some? then mismatch else EmptyEntry(Endorsements(tx), i, 0)
  }

  /** `validateTransactionsForMerge` from transaction `i` on. */
  function Check(txs: seq<TxContents>, i: nat): Option<Failure>
    requires txs != [] && i <= |txs|
    decreases |txs| - i
  {
    if i == |txs| then None
    else
      var failure := CheckOne(Namespaces(txs[0]), txs[i], i);
      if failure.Some? then failure else Check(txs, i + 1)
  }

  /** Some transaction carries more endorsement entries than there are namespaces. */
  predicate Overflows(txs: seq<TxContents>, n: nat)
  {
    exists i :: 0 <= i < |txs| && |Endorsements(txs[i])| > n
  }

  /** The sort compares entries of this list, and one of them has no identity. */
  predicate ComparesNil(s: seq<Endorsement>)
  {
    |s| >= 2 && exists e :: e in s && e.identity.None?
  }

  predicate NilCompared(txs: seq<TxContents>, n: nat)
  {
    exists k: nat :: k < n && ComparesNil(Dedup(Gather(txs, k)))
  }

  /** The meaning of `Merge` on message contents. */
  function MergeValue(txs: seq<TxContents>): Result<TxValue, Failure>
  {
    if |txs| < 2 then Err(TooFewTransactions)
    else if Check(txs, 0).Some? then Err(Check(txs, 0).value)
    else if txs[0].None? then Err(CloneFailed)
    else
      var n := |txs[0].value.namespaces|;
      if Overflows(txs, n) then Err(IndexOutOfRangePanic)
      else if NilCompared(txs, n) then Err(NilIdentityPanic)
      else Ok(TxValue(txs[0].value.namespaces, seq(n, k requires 0 <= k < n => Canon(Gather(txs, k)))))
  }

  /** The deduplicated, still unsorted endorsements of each namespace. */
  function MergedLists(txs: seq<TxContents>, n: nat): seq<seq<Endorsement>>
  {
    seq(n, k requires 0 <= k < n => Dedup(Gather(txs, k)))
  }

  /** No entry is empty. */
  predicate Filled(tx: TxContents)
  {
    forall k :: 0 <= k < |Endorsements(tx)| ==> Endorsements(tx)[k] != []
  }

  /** What validation asks of one transaction. */
  predicate Acceptable(base: seq<Namespace>, tx: TxContents)
  {
    Namespaces(tx) == base && Filled(tx)
  }

  lemma {:induction false} ContentMismatchIff(base: seq<Namespace>, other: seq<Namespace>, i: nat, k: nat)
    requires |base| == |other| && k <= |base|
    ensures ContentMismatch(base, other, i, k).None? <==> base[k..] == other[k..]
    decreases |base| - k
  {
    if k < |base| {
      ContentMismatchIff(base, other, i, k + 1);
      assert base[k..] == [base[k]] + base[k + 1..] && other[k..] == [other[k]] + other[k + 1..];
    }
  }

  lemma {:induction false} EmptyEntryIff(entries: seq<seq<Endorsement>>, i: nat, k: nat)
    requires k <= |entries|
    ensures EmptyEntry(entries, i, k).None? <==> forall a :: k <= a < |entries| ==> entries[a] != []
    decreases |entries| - k
  {
    if k < |entries| {
      EmptyEntryIff(entries, i, k + 1);
    }
  }

  lemma CheckOneIff(base: seq<Namespace>, tx: TxContents, i: nat)
    ensures CheckOne(base, tx, i).None? <==> Acceptable(base, tx)
  {
    if |Namespaces(tx)| == |base| {
      ContentMismatchIff(base, Namespaces(tx), i, 0);
      assert base[0..] == base && Namespaces(tx)[0..] == Namespaces(tx);
      EmptyEntryIff(Endorsements(tx), i, 0);
    }
  }

  lemma {:induction false} CheckIff(txs: seq<TxContents>, i: nat)
    requires txs != [] && i <= |txs|
    ensures Check(txs, i).None? <==> forall a :: i <= a < |txs| ==> Acceptable(Namespaces(txs[0]), txs[a])
    decreases |txs| - i
  {
    if i < |txs| {
      CheckOneIff(Namespaces(txs[0]), txs[i], i);
      CheckIff(txs, i + 1);
    }
  }

  /** Transaction `i` fails this check, and passes those before it in the order of the loop. */
  predicate FailsCheck(base: seq<Namespace>, tx: TxContents, i: nat, f: Failure)
  {
    match f
    case NamespaceCountMismatch(j) => j == i && |Namespaces(tx)| != |base|
    case NamespaceContentMismatch(j, k) =>
      && j == i && |Namespaces(tx)| == |base| && k < |base|
      && Namespaces(tx)[k] != base[k] && Namespaces(tx)[..k] == base[..k]
    case MissingEndorsement(j, k) =>
      && j == i && Namespaces(tx) == base && k < |Endorsements(tx)|
      && Endorsements(tx)[k] == [] && forall a :: 0 <= a < k ==> Endorsements(tx)[a] != []
    case _ => false
  }

  /** The transactions before it pass all checks. */
  ghost predicate FirstFailure(txs: seq<TxContents>, f: Failure)
    requires txs != []
  {
    exists i: nat :: i < |txs| && FailsCheck(Namespaces(txs[0]), txs[i], i, f) &&
      forall a :: 0 <= a < i ==> Acceptable(Namespaces(txs[0]), txs[a])
  }

  lemma {:induction false} ContentMismatchAt(base: seq<Namespace>, other: seq<Namespace>, i: nat, k: nat)
    requires |base| == |other| && k <= |base| && base[..k] == other[..k]
    ensures var r := ContentMismatch(base, other, i, k);
            r.Some? ==>
              && r.value.NamespaceContentMismatch? && r.value.tx == i && r.value.ns < |base|
              && other[r.value.ns] != base[r.value.ns] && other[..r.value.ns] == base[..r.value.ns]
    decreases |base| - k
  {
    if k < |base| && base[k] == other[k] {
      assert base[..k + 1] == base[..k] + [base[k]] && other[..k + 1] == other[..k] + [other[k]];
      ContentMismatchAt(base, other, i, k + 1);
    }
  }

  lemma {:induction false} EmptyEntryAt(entries: seq<seq<Endorsement>>, i: nat, k: nat)
    requires k <= |entries| && forall a :: 0 <= a < k ==> entries[a] != []
    ensures var r := EmptyEntry(entries, i, k);
            r.Some? ==>
              && r.value.MissingEndorsement? && r.value.tx == i && r.value.ns < |entries|
              && entries[r.value.ns] == [] && forall a :: 0 <= a < r.value.ns ==> entries[a] != []
    decreases |entries| - k
  {
    if k < |entries| && entries[k] != [] {
      EmptyEntryAt(entries, i, k + 1);
    }
  }

  lemma CheckOneFails(base: seq<Namespace>, tx: TxContents, i: nat)
    ensures CheckOne(base, tx, i).Some? ==> FailsCheck(base, tx, i, CheckOne(base, tx, i).value)
  {
    if |Namespaces(tx)| == |base| {
      ContentMismatchIff(base, Namespaces(tx), i, 0);
      ContentMismatchAt(base, Namespaces(tx), i, 0);
      assert base[0..] == base && Namespaces(tx)[0..] == Namespaces(tx);
      EmptyEntryAt(Endorsements(tx), i, 0);
    }
  }

  /** Validation reports the first failure, in the order of the source. */
  lemma {:induction false} CheckFails(txs: seq<TxContents>, i: nat)
    requires txs != [] && i <= |txs| && forall a :: 0 <= a < i ==> Acceptable(Namespaces(txs[0]), txs[a])
    ensures Check(txs, i).Some? ==> FirstFailure(txs, Check(txs, i).value)
    decreases |txs| - i
  {
    if i < |txs| {
      CheckOneIff(Namespaces(txs[0]), txs[i], i);
      CheckOneFails(Namespaces(txs[0]), txs[i], i);
      if CheckOne(Namespaces(txs[0]), txs[i], i).None? {
        CheckFails(txs, i + 1);
      }
    }
  }

  /** What the getters read of a transaction message is what its contents hold. */
  lemma GettersRead(tx: Tx)
    ensures Namespaces(Contents(tx)) == tx.namespaces
    ensures |Endorsements(Contents(tx))| == |tx.endorsements|
    ensures forall k :: 0 <= k < |tx.endorsements| ==> Endorsements(Contents(tx))[k] == GetItems(tx.endorsements[k])
  {
  }

  /** The body of the loop of `validateTransactionsForMerge`. */
  method ValidateOne(base: seq<Namespace>, tx: Tx?, i: nat) returns (failure: Option<Failure>)
    ensures failure == CheckOne(base, Contents(tx), i)
  {
    ghost var entries := Endorsements(Contents(tx));
    var namespaces := if tx == null then [] else tx.namespaces;
    var sets := if tx == null then [] else tx.endorsements;
    if tx != null {
      GettersRead(tx);
    }
    if |namespaces| != |base| {
      return Some(NamespaceCountMismatch(i));
    }
    for k := 0 to |base|
      invariant ContentMismatch(base, namespaces, i, 0) == ContentMismatch(base, namespaces, i, k)
    {
      if base[k] != namespaces[k] {
        return Some(NamespaceContentMismatch(i, k));
      }
    }
    for k := 0 to |sets|
      invariant EmptyEntry(entries, i, 0) == EmptyEntry(entries, i, k)
    {
      assert entries[k] == GetItems(sets[k]);
      if sets[k] == null || sets[k].items == [] {
        return Some(MissingEndorsement(i, k));
      }
    }
    return None;
  }

  /** `validateTransactionsForMerge` on message objects. */
  method Validate(txs: seq<Tx?>, ghost contents: seq<TxContents>) returns (failure: Option<Failure>)
    requires txs != [] && |contents| == |txs|
    requires forall i :: 0 <= i < |txs| ==> Contents(txs[i]) == contents[i]
    ensures failure == Check(contents, 0)
    ensures failure.Some? ==> FirstFailure(contents, failure.value)
  {
    CheckFails(contents, 0);
    assert Contents(txs[0]) == contents[0];
    var base := if txs[0] == null then [] else txs[0].namespaces;
    for i := 0 to |txs|
      invariant Check(contents, 0) == Check(contents, i)
    {
      failure := ValidateOne(base, txs[i], i);
      if failure.Some? {
        return;
      }
    }
    return None;
  }

  /** `merged[k]` and `seen[k]` hold what deduplication leaves of `gathered[k]`. */
  ghost predicate Collected(merged: seq<seq<Endorsement>>, seen: seq<set<string>>, gathered: seq<seq<Endorsement>>)
  {
    && |seen| == |gathered| == |merged|
    && (forall k :: 0 <= k < |merged| ==> merged[k] == Dedup(gathered[k]))
    && (forall k, key :: 0 <= k < |merged| ==> (key in seen[k] <==> Has(merged[k], key)))
  }

  /** `gathered` with `more` added for namespace `ns`. */
  ghost function Extended(gathered: seq<seq<Endorsement>>, ns: nat, more: seq<Endorsement>): seq<seq<Endorsement>>
    requires ns < |gathered|
  {
    gathered[ns := gathered[ns] + more]
  }

  lemma ExtendNothing(gathered: seq<seq<Endorsement>>, ns: nat)
    requires ns < |gathered|
    ensures Extended(gathered, ns, []) == gathered
  {
    assert gathered[ns] + [] == gathered[ns];
  }

  lemma ExtendMore(gathered: seq<seq<Endorsement>>, ns: nat, items: seq<Endorsement>, j: nat)
    requires ns < |gathered| && j < |items|
    ensures Extended(Extended(gathered, ns, items[..j]), ns, [items[j]]) == Extended(gathered, ns, items[..j + 1])
  {
    assert gathered[ns] + items[..j] + [items[j]] == gathered[ns] + items[..j + 1];
  }

  lemma HasStep(s: seq<Endorsement>, e: Endorsement)
    ensures forall key :: Has(s + [e], key) <==> Has(s, key) || key == MspID(e)
  {
    assert (s + [e])[|s|] == e;
    forall key | Has(s, key)
      ensures Has(s + [e], key)
    {
      var i :| 0 <= i < |s| && MspID(s[i]) == key;
      assert (s + [e])[i] == s[i];
    }
  }

  /** One endorsement of namespace `ns`: kept when its MSP ID is new, skipped otherwise. */
  lemma CollectStep(merged: seq<seq<Endorsement>>, seen: seq<set<string>>, gathered: seq<seq<Endorsement>>,
                    ns: nat, e: Endorsement)
    requires ns < |merged| && Collected(merged, seen, gathered)
    ensures MspID(e) in seen[ns] ==> Collected(merged, seen, Extended(gathered, ns, [e]))
    ensures MspID(e) !in seen[ns] ==>
              Collected(merged[ns := merged[ns] + [e]], seen[ns := seen[ns] + {MspID(e)}], Extended(gathered, ns, [e]))
  {
    DedupStep(gathered[ns], e);
    HasStep(merged[ns], e);
  }

  /** The innermost loop of `mergeEndorsements`, over the endorsements of one entry. */
  method CollectEntry(merged: array<seq<Endorsement>>, seen: array<set<string>>, ns: nat, items: seq<Endorsement>,
                      ghost gathered: seq<seq<Endorsement>>)
    requires ns < merged.Length == seen.Length
    requires Collected(merged[..], seen[..], gathered)
    modifies merged, seen
    ensures Collected(merged[..], seen[..], Extended(gathered, ns, items))
  {
    ExtendNothing(gathered, ns);
    for j := 0 to |items|
      invariant Collected(merged[..], seen[..], Extended(gathered, ns, items[..j]))
    {
      var key := MspID(items[j]);
      ghost var m, s := merged[..], seen[..];
      CollectStep(m, s, Extended(gathered, ns, items[..j]), ns, items[j]);
      ExtendMore(gathered, ns, items, j);
      if key !in seen[ns] {
        seen[ns] := seen[ns] + {key};
        merged[ns] := merged[ns] + [items[j]];
        assert seen[..] == s[ns := s[ns] + {key}] && merged[..] == m[ns := m[ns] + [items[j]]];
      }
    }
    assert items[..|items|] == items;
  }

  /** What each of `n` namespaces has collected from `txs` and the first `ns` entries of `tx`. */
  ghost function GatherAll(txs: seq<TxContents>, tx: seq<seq<Endorsement>>, ns: nat, n: nat): (r: seq<seq<Endorsement>>)
    requires ns <= |tx|
    ensures |r| == n
  {
    seq(n, k requires 0 <= k < n => Gather(txs, k) + if k < ns then tx[k] else [])
  }

  lemma GatherAllStep(txs: seq<TxContents>, tx: seq<seq<Endorsement>>, ns: nat, n: nat)
    requires ns < |tx| && ns < n
    ensures GatherAll(txs, tx, ns + 1, n) == Extended(GatherAll(txs, tx, ns, n), ns, tx[ns])
  {
    assert Gather(txs, ns) + [] == Gather(txs, ns);
  }

  lemma GatherAllStart(txs: seq<TxContents>, tx: seq<seq<Endorsement>>, n: nat)
    ensures GatherAll(txs, [], 0, n) == GatherAll(txs, tx, 0, n)
  {
  }

  lemma GatherAllNext(txs: seq<TxContents>, tx: TxContents, n: nat)
    requires |Endorsements(tx)| <= n
    ensures GatherAll(txs, Endorsements(tx), |Endorsements(tx)|, n) == GatherAll(txs + [tx], [], 0, n)
  {
    assert (txs + [tx])[..|txs|] == txs;
    forall k | 0 <= k < n
      ensures GatherAll(txs + [tx], [], 0, n)[k] == GatherAll(txs, Endorsements(tx), |Endorsements(tx)|, n)[k]
    {
      assert Gather(txs + [tx], k) == Gather(txs, k) + Entry(tx, k);
    }
  }

  /** The middle loop, over the entries of one transaction. Looking up the MSP IDs of an entry
      beyond the namespaces runs past the end of `seen`. */
  method CollectTransaction(merged: array<seq<Endorsement>>, seen: array<set<string>>, tx: Tx?,
                            ghost before: seq<TxContents>, ghost now: TxContents) returns (overflow: bool)
    requires merged.Length == seen.Length
    requires now == Contents(tx) && Filled(now)
    requires Collected(merged[..], seen[..], GatherAll(before, [], 0, merged.Length))
    modifies merged, seen
    ensures overflow == (|Endorsements(now)| > merged.Length)
    ensures !overflow ==>
              Collected(merged[..], seen[..], GatherAll(before + [now], [], 0, merged.Length))
  {
    ghost var entries := Endorsements(now);
    GatherAllStart(before, entries, merged.Length);
    var sets := if tx == null then [] else tx.endorsements;
    for ns := 0 to |sets|
      invariant now == Contents(tx)
      invariant ns <= merged.Length
      invariant Collected(merged[..], seen[..], GatherAll(before, entries, ns, merged.Length))
    {
      var items := if sets[ns] == null then [] else sets[ns].items;
      if items != [] && ns >= merged.Length {
        return true;
      }
      GatherAllStep(before, entries, ns, merged.Length);
      CollectEntry(merged, seen, ns, items, GatherAll(before, entries, ns, merged.Length));
    }
    GatherAllNext(before, now, merged.Length);
    return false;
  }

  lemma CollectedAll(merged: seq<seq<Endorsement>>, seen: seq<set<string>>, contents: seq<TxContents>, n: nat)
    requires Collected(merged, seen, GatherAll(contents, [], 0, n))
    ensures merged == MergedLists(contents, n)
  {
    forall k | 0 <= k < n
      ensures merged[k] == MergedLists(contents, n)[k]
    {
      assert Gather(contents, k) + [] == Gather(contents, k);
    }
  }

  lemma NothingCollected(n: nat, merged: seq<seq<Endorsement>>, seen: seq<set<string>>)
    requires |merged| == |seen| == n
    requires forall k :: 0 <= k < n ==> merged[k] == [] && seen[k] == {}
    ensures Collected(merged, seen, GatherAll([], [], 0, n))
  {
  }

  lemma OverflowsMore(txs: seq<TxContents>, tx: TxContents, n: nat)
    ensures Overflows(txs + [tx], n) <==> Overflows(txs, n) || |Endorsements(tx)| > n
  {
    assert (txs + [tx])[|txs|] == tx;
    assert forall i :: 0 <= i < |txs| ==> (txs + [tx])[i] == txs[i];
  }

  lemma OverflowsPart(part: seq<TxContents>, txs: seq<TxContents>, n: nat)
    requires Overflows(part, n) && |part| <= |txs| && forall i :: 0 <= i < |part| ==> part[i] == txs[i]
    ensures Overflows(txs, n)
  {
    var i :| 0 <= i < |part| && |Endorsements(part[i])| > n;
    assert |Endorsements(txs[i])| > n;
  }

  /** The outer loop, over the transactions. */
  method CollectAll(merged: array<seq<Endorsement>>, seen: array<set<string>>, txs: seq<Tx?>,
                    ghost contents: seq<TxContents>) returns (overflow: bool)
    requires merged.Length == seen.Length && |contents| == |txs|
    requires forall i :: 0 <= i < |txs| ==> Contents(txs[i]) == contents[i]
    requires forall i :: 0 <= i < |txs| ==> Filled(contents[i])
    requires Collected(merged[..], seen[..], GatherAll([], [], 0, merged.Length))
    modifies merged, seen
    ensures overflow == Overflows(contents, merged.Length)
    ensures !overflow ==> Collected(merged[..], seen[..], GatherAll(contents, [], 0, merged.Length))
  {
    ghost var done: seq<TxContents> := [];
    for i := 0 to |txs|
      invariant |done| == i && forall a :: 0 <= a < i ==> done[a] == contents[a]
      invariant Collected(merged[..], seen[..], GatherAll(done, [], 0, merged.Length))
      invariant !Overflows(done, merged.Length)
    {
      ghost var now := contents[i];
      overflow := CollectTransaction(merged, seen, txs[i], done, now);
      OverflowsMore(done, now, merged.Length);
      done := done + [now];
      if overflow {
        OverflowsPart(done, contents, merged.Length);
        return;
      }
    }
    assert done == contents;
    overflow := false;
  }

  /** `mergeEndorsements` on message objects: the deduplicated endorsements of every
      namespace, unless an index runs past the namespaces. */
  method MergeEndorsements(txs: seq<Tx?>, n: nat, ghost contents: seq<TxContents>)
      returns (merged: array<seq<Endorsement>>, overflow: bool)
    requires |contents| == |txs|
    requires forall i :: 0 <= i < |txs| ==> Contents(txs[i]) == contents[i]
    requires forall i :: 0 <= i < |txs| ==> Filled(contents[i])
    ensures fresh(merged)
    ensures overflow == Overflows(contents, n)
    ensures !overflow ==> merged[..] == MergedLists(contents, n)
  {
    merged := new seq<Endorsement>[n](_ => []);
    var seen := new set<string>[n](_ => {});
    NothingCollected(n, merged[..], seen[..]);
    overflow := CollectAll(merged, seen, txs, contents);
    if !overflow {
      CollectedAll(merged[..], seen[..], contents, n);
    }
  }

  /** `sort.Slice` on one list: some permutation without inversions, whichever it is. */
  method SortSlice(s: seq<Endorsement>) returns (sorted: seq<Endorsement>)
    ensures IsSorting(s, sorted)
  {
    SortIsSorting(s);
    sorted :| IsSorting(s, sorted);
  }

  /** `sortEndorsementsByMspID`: every list is sorted, unless a comparison meets a nil identity. */
  method SortAll(merged: array<seq<Endorsement>>) returns (nilIdentity: bool)
    modifies merged
    ensures nilIdentity <==> exists k :: 0 <= k < merged.Length && ComparesNil(old(merged[k]))
    ensures !nilIdentity ==> forall k :: 0 <= k < merged.Length ==> IsSorting(old(merged[k]), merged[k])
  {
    for k := 0 to merged.Length
      invariant forall a :: 0 <= a < k ==> !ComparesNil(old(merged[a])) && IsSorting(old(merged[a]), merged[a])
      invariant forall a :: k <= a < merged.Length ==> merged[a] == old(merged[a])
    {
      if ComparesNil(merged[k]) {
        return true;
      }
      merged[k] := SortSlice(merged[k]);
    }
    return false;
  }

  lemma SortedLists(contents: seq<TxContents>, n: nat, sorted: seq<seq<Endorsement>>)
    requires |sorted| == n
    requires forall k :: 0 <= k < n ==> IsSorting(MergedLists(contents, n)[k], sorted[k])
    ensures sorted == seq(n, k requires 0 <= k < n => Canon(Gather(contents, k)))
  {
    forall k | 0 <= k < n
      ensures sorted[k] == Canon(Gather(contents, k))
    {
      AnySortingIsCanon(Gather(contents, k), sorted[k]);
    }
  }

  lemma ListsIncrease(contents: seq<TxContents>, n: nat)
    ensures forall k :: 0 <= k < n ==> StrictlyIncreasing(Canon(Gather(contents, k)))
  {
    forall k | 0 <= k < n
      ensures StrictlyIncreasing(Canon(Gather(contents, k)))
    {
      CanonCorrect(Gather(contents, k));
    }
  }

  /** Deduplicate, then sort: the part of `Merge` after validation and cloning. */
  method MergeLists(txs: seq<Tx?>, n: nat, ghost contents: seq<TxContents>)
      returns (lists: seq<seq<Endorsement>>, failure: Option<Failure>)
    requires |contents| == |txs|
    requires forall i :: 0 <= i < |txs| ==> Contents(txs[i]) == contents[i]
    requires forall i :: 0 <= i < |txs| ==> Filled(contents[i])
    ensures failure == if Overflows(contents, n) then Some(IndexOutOfRangePanic)
                       else if NilCompared(contents, n) then Some(NilIdentityPanic)
                       else None
    ensures failure == None ==> lists == seq(n, k requires 0 <= k < n => Canon(Gather(contents, k)))
  {
    lists := [];
    var merged, overflow := MergeEndorsements(txs, n, contents);
    if overflow {
      return lists, Some(IndexOutOfRangePanic);
    }
    ghost var unsorted := merged[..];
    assert forall k :: 0 <= k < n ==> merged[k] == unsorted[k] == Dedup(Gather(contents, k));
    var nilIdentity := SortAll(merged);
    if nilIdentity {
      return lists, Some(NilIdentityPanic);
    }
    SortedLists(contents, n, merged[..]);
    return merged[..], None;
  }

  /** `Merge` on message objects. It modifies nothing: the result is made of new messages. */
  method Merge(txs: seq<Tx?>) returns (merged: Tx?, failure: Option<Failure>)
    ensures merged == null ==> failure.Some? && MergeValue(old(AllContents(txs))) == Err(failure.value)
    ensures merged != null ==> failure.None? && MergeValue(old(AllContents(txs))) == Ok(merged.Value())
    ensures merged != null ==> forall k :: 0 <= k < |merged.Value().endorsements| ==>
              StrictlyIncreasing(merged.Value().endorsements[k])
    ensures merged != null ==> fresh(merged) && fresh(Parts(merged))
  {
    ghost var contents := AllContents(txs);
    merged := null;
    if |txs| < 2 {
      return null, Some(TooFewTransactions);
    }
    failure := Validate(txs, contents);
    if failure.Some? {
      return;
    }
    CheckIff(contents, 0);
    if txs[0] == null {
      return null, Some(CloneFailed);
    }
    assert contents[0] == Contents(txs[0]);
    var namespaces := txs[0].namespaces;
    var lists;
    lists, failure := MergeLists(txs, |namespaces|, contents);
    if failure.None? {
      ListsIncrease(contents, |namespaces|);
      merged := Build(namespaces, lists);
    }
  }
}
