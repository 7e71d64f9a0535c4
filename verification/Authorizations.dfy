/** The flat signature list of a block body: one signature per input, in transaction order. */
module Authorizations {
  import opened Rows
  import opened Prepare

  /** Where the signatures of transaction `i` start. */
  function Start(txs: seq<Transaction>, i: nat): nat
    requires i <= |txs|
  {
    if i == 0 then 0 else Start(txs, i - 1) + |txs[i - 1].inputs|
  }

  /** The signatures that cover one transaction, or None when the index or the list falls short. */
  method AuthorizationsFor<A>(txs: seq<Transaction>, authorizations: seq<A>, txIndex: int) returns (r: Option<seq<A>>)
    ensures r.Some? <==> 0 <= txIndex < |txs| && Start(txs, txIndex + 1) <= |authorizations|
    ensures r.Some? ==> Start(txs, txIndex) <= Start(txs, txIndex + 1)
    ensures r.Some? ==> r.value == authorizations[Start(txs, txIndex)..Start(txs, txIndex + 1)]
    ensures r.Some? ==> |r.value| == |txs[txIndex].inputs|
  {
    if txIndex < 0 || txIndex >= |txs| {
      return None;
    }
    var start := 0;
    for i := 0 to txIndex
      invariant start == Start(txs, i)
    {
      start := start + |txs[i].inputs|;
    }
    var end := start + |txs[txIndex].inputs|;
    if end > |authorizations| {
      return None;
    }
    r := Some(authorizations[start..end]);
  }

  /** Every input of the body, in transaction order. */
  function AllInputs(txs: seq<Transaction>): seq<OutPoint> {
    if txs == [] then [] else txs[0].inputs + AllInputs(txs[1..])
  }

  lemma {:induction false} AllInputsConcat(a: seq<Transaction>, b: seq<Transaction>)
    ensures AllInputs(a + b) == AllInputs(a) + AllInputs(b)
    decreases |a|
  {
    if a == [] {
      assert a + b == b;
    } else {
      AllInputsConcat(a[1..], b);
      assert (a + b)[1..] == a[1..] + b;
    }
  }

  /** The signatures of transaction `i` start after one for each input before it. */
  lemma {:induction false} StartCountsInputs(txs: seq<Transaction>, i: nat)
    requires i <= |txs|
    ensures Start(txs, i) == |AllInputs(txs[..i])|
    decreases i
  {
    if i == 0 {
    } else {
      StartCountsInputs(txs, i - 1);
      AllInputsConcat(txs[..i - 1], [txs[i - 1]]);
      assert txs[..i] == txs[..i - 1] + [txs[i - 1]];
      assert [txs[i - 1]][1..] == [] && AllInputs([txs[i - 1]]) == txs[i - 1].inputs + [];
    }
  }

  /**
   The signature at position `k` of the list signs input `k` of the body: input `j` of transaction `i` stands there
   among all inputs, and that is the position its slice takes signature `j` from.
   */
  lemma SignatureOfInput(txs: seq<Transaction>, i: nat, j: nat)
    requires i < |txs| && j < |txs[i].inputs|
    ensures var k := Start(txs, i) + j;
      k < Start(txs, i + 1) && k < |AllInputs(txs)| && AllInputs(txs)[k] == txs[i].inputs[j]
  {
    StartCountsInputs(txs, i);
    var here, rest := txs[i], txs[i + 1..];
    AllInputsConcat(txs[..i], [here] + rest);
    assert txs == txs[..i] + ([here] + rest);
    assert ([here] + rest)[1..] == rest;
    assert AllInputs([here] + rest) == here.inputs + AllInputs(rest);
  }

  lemma {:induction false} StartMonotone(txs: seq<Transaction>, i: nat, j: nat)
    requires i <= j <= |txs|
    ensures Start(txs, i) <= Start(txs, j)
    decreases j
  {
    if i < j {
      StartMonotone(txs, i, j - 1);
    }
  }

  /** The slices of the first `n` transactions, one after the other. */
  function Slices<A>(txs: seq<Transaction>, authorizations: seq<A>, n: nat): seq<A>
    requires n <= |txs| && Start(txs, n) <= |authorizations|
  {
    if n == 0 then [] else
      Slices(txs, authorizations, n - 1) + authorizations[Start(txs, n - 1)..Start(txs, n)]
  }

  /** The slices tile the list: contiguous, disjoint, and together the prefix as long as all the inputs. */
  lemma {:induction false} SlicesTile<A>(txs: seq<Transaction>, authorizations: seq<A>, n: nat)
    requires n <= |txs| && Start(txs, n) <= |authorizations|
    ensures Slices(txs, authorizations, n) == authorizations[..Start(txs, n)]
    ensures |Slices(txs, authorizations, n)| == |AllInputs(txs[..n])|
    decreases n
  {
    StartCountsInputs(txs, n);
    if n == 0 {
    } else {
      SlicesTile(txs, authorizations, n - 1);
    }
  }

  /** Each signature of the prefix covers exactly one transaction. */
  lemma {:induction false} OneOwner(txs: seq<Transaction>, n: nat, k: nat) returns (i: nat)
    requires n <= |txs| && k < Start(txs, n)
    ensures i < n && Start(txs, i) <= k < Start(txs, i + 1)
    ensures forall j | 0 <= j < |txs| && Start(txs, j) <= k < Start(txs, j + 1) :: j == i
    decreases n
  {
    if k >= Start(txs, n - 1) {
      i := n - 1;
    } else {
      i := OneOwner(txs, n - 1, k);
    }
    forall j | 0 <= j < |txs| && Start(txs, j) <= k < Start(txs, j + 1)
      ensures j == i
    {
      if j < i {
        StartMonotone(txs, j + 1, i);
      } else if i < j {
        StartMonotone(txs, i + 1, j);
      }
    }
  }
}
