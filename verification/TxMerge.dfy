/** The `tx merge` command: decode the inputs, insist on one transaction ID, merge. */
module TxMerge {
  import opened Wrappers
  import opened Transactions
  import opened Merge

  /** A decoded input file. */
  datatype Decoded = Decoded(id: string, tx: Tx?)

  /** All inputs were decoded, there is at least one, and they carry one ID. */
  predicate OneID(inputs: seq<Option<Decoded>>)
  {
    inputs != [] &&
    forall i :: 0 <= i < |inputs| ==> inputs[i].Some? && inputs[0].Some? && inputs[i].value.id == inputs[0].value.id
  }

  /** The IDs of these inputs. */
  function IDs(inputs: seq<Option<Decoded>>): set<string>
    requires forall i :: 0 <= i < |inputs| ==> inputs[i].Some?
  {
    set i | 0 <= i < |inputs| :: inputs[i].value.id
  }

  lemma OneIDIff(inputs: seq<Option<Decoded>>)
    requires forall i :: 0 <= i < |inputs| ==> inputs[i].Some?
    ensures |IDs(inputs)| == 1 <==> OneID(inputs)
  {
    if OneID(inputs) {
      assert IDs(inputs) == {inputs[0].value.id};
    } else if inputs != [] {
      var i :| 0 <= i < |inputs| && inputs[i].value.id != inputs[0].value.id;
      assert {inputs[i].value.id, inputs[0].value.id} <= IDs(inputs);
      assert |IDs(inputs) - {inputs[0].value.id}| >= 1 by {
        assert inputs[i].value.id in IDs(inputs) - {inputs[0].value.id};
      }
    } else {
      assert IDs(inputs) == {};
    }
  }

  /** `resolveInputs`; an input that cannot be read or decoded is `None`. */
  method ResolveInputs(inputs: seq<Option<Decoded>>) returns (ok: bool, txID: string, txs: seq<Tx?>)
    ensures ok <==> OneID(inputs)
    ensures ok ==> |txs| == |inputs| && forall i :: 0 <= i < |txs| ==> txs[i] == inputs[i].value.tx
    ensures ok ==> forall i :: 0 <= i < |inputs| ==> inputs[i].value.id == txID
  {
    txs := [];
    txID := "";
    var txIDs: set<string> := {};
    for i := 0 to |inputs|
      invariant |txs| == i
      invariant forall a :: 0 <= a < i ==> inputs[a].Some? && txs[a] == inputs[a].value.tx
      invariant txIDs == IDs(inputs[..i])
      invariant txID == "" ==> forall a :: 0 <= a < i ==> inputs[a].value.id == ""
      invariant txID != "" ==> txID in txIDs
    {
      if inputs[i].None? {
        return false, "", [];
      }
      var input := inputs[i].value;
      txIDs := txIDs + {input.id};
      if txID == "" {
        txID := input.id;
      }
      txs := txs + [input.tx];
    }
    assert inputs[..|inputs|] == inputs;
    OneIDIff(inputs);
    if |txIDs| != 1 {
      return false, "", [];
    }
    assert txIDs == {inputs[0].value.id} by {
      assert forall i :: 0 <= i < |inputs| ==> inputs[i].value.id == inputs[0].value.id;
    }
    ok := true;
  }

  /** The command, on inputs that decode to transactions with these contents: it produces a
      transaction exactly when the IDs agree and the contents merge, and then with that ID
      and the merged contents. */
  method TxMergeCommand(inputs: seq<Option<Decoded>>, ghost contents: seq<TxContents>)
      returns (txID: string, merged: Tx?)
    requires |contents| == |inputs|
    requires forall i :: 0 <= i < |inputs| && inputs[i].Some? ==> Contents(inputs[i].value.tx) == contents[i]
    ensures merged != null <==> OneID(inputs) && MergeValue(contents).Ok?
    ensures merged != null ==> MergeValue(contents) == Ok(merged.Value())
    ensures merged != null ==> forall i :: 0 <= i < |inputs| ==> inputs[i].value.id == txID
  {
    var ok, id, txs := ResolveInputs(inputs);
    if !ok {
      return "", null;
    }
    assert AllContents(txs) == contents by {
      forall i | 0 <= i < |txs|
        ensures Contents(txs[i]) == contents[i]
      {
        assert txs[i] == inputs[i].value.tx;
      }
    }
    var failure;
    merged, failure := Merge.Merge(txs);
    txID := id;
  }
}
