/** The unspent outputs of a chain: the insert/erase scan, and what it means. */
module Unspent {
  import opened Transactions
  import opened Blocks

  /** A transaction together with the place it occupies in the chain. */
  datatype Posting = Posting(block: nat, index: nat, tx: Transaction)

  function BlockPostings(b: Block): seq<Posting> {
    seq(|b.txs|, i requires 0 <= i < |b.txs| => Posting(b.index, i, b.txs[i]))
  }

  /** All transactions of a chain in the order the scans visit them. */
  function Postings(chain: seq<Block>): seq<Posting> {
    if chain == [] then [] else Postings(chain[..|chain| - 1]) + BlockPostings(chain[|chain| - 1])
  }

  function RefOf(q: Posting, j: nat): OutRef {
    OutRef(q.block, q.index, j)
  }

  function OutOf(q: Posting, j: nat): TxOutPoint
    requires j < |q.tx.txOuts|
  {
    TxOutPoint(q.block, q.index, j, Some(q.tx.txOuts[j].address), Some(q.tx.txOuts[j].amount))
  }

  // ---- The ordered set the scan keeps ----

  function Insert(key: OutRef -> nat, outs: seq<TxOutPoint>, x: TxOutPoint): seq<TxOutPoint> {
    if outs == [] || key(Ref(x)) < key(Ref(outs[0])) then [x] + outs
    else if key(Ref(x)) == key(Ref(outs[0])) then outs
    else [outs[0]] + Insert(key, outs[1..], x)
  }

  function Erase(outs: seq<TxOutPoint>, r: OutRef): seq<TxOutPoint> {
    if outs == [] then []
    else if Ref(outs[0]) == r then outs[1..]
    else [outs[0]] + Erase(outs[1..], r)
  }

  predicate Sorted(key: OutRef -> nat, outs: seq<TxOutPoint>) {
    forall i, j :: 0 <= i < j < |outs| ==> key(Ref(outs[i])) < key(Ref(outs[j]))
  }

  predicate Wanted(address: string, out: string) {
    address == "" || out == address
  }

  function InsertOutputs(key: OutRef -> nat, address: string, outs: seq<TxOutPoint>, q: Posting, n: nat)
    : seq<TxOutPoint>
    requires n <= |q.tx.txOuts|
  {
    if n == 0 then outs
    else
      var rest := InsertOutputs(key, address, outs, q, n - 1);
      if Wanted(address, q.tx.txOuts[n - 1].address) then Insert(key, rest, OutOf(q, n - 1)) else rest
  }

  function EraseInputs(outs: seq<TxOutPoint>, ins: seq<TxIn>): seq<TxOutPoint> {
    if ins == [] then outs
    else Erase(EraseInputs(outs, ins[..|ins| - 1]), Ref(ins[|ins| - 1].txOutPt))
  }

  function ScanTx(key: OutRef -> nat, address: string, outs: seq<TxOutPoint>, q: Posting): seq<TxOutPoint> {
    var added := InsertOutputs(key, address, outs, q, |q.tx.txOuts|);
    if IsCoinbase(q.tx) then added else EraseInputs(added, q.tx.txIns)
  }

  function Scan(key: OutRef -> nat, address: string, qs: seq<Posting>): seq<TxOutPoint> {
    if qs == [] then []
    else ScanTx(key, address, Scan(key, address, qs[..|qs| - 1]), qs[|qs| - 1])
  }

  // ---- What the scan means ----

  predicate NamedIn(ins: seq<TxIn>, r: OutRef) {
    exists n :: 0 <= n < |ins| && Ref(ins[n].txOutPt) == r
  }

  /** A coinbase input names an output without spending it. */
  predicate Spends(tx: Transaction, r: OutRef) {
    !IsCoinbase(tx) && NamedIn(tx.txIns, r)
  }

  /** `x` is output `j` of the transaction at `i`, and no transaction from `i` on spends it. */
  predicate UnspentFrom(qs: seq<Posting>, x: TxOutPoint, i: nat, j: nat) {
    && i < |qs| && j < |qs[i].tx.txOuts| && x == OutOf(qs[i], j)
    && forall k :: i <= k < |qs| ==> !Spends(qs[k].tx, Ref(x))
  }

  ghost predicate IsUnspent(qs: seq<Posting>, x: TxOutPoint) {
    exists i: nat, j: nat :: UnspentFrom(qs, x, i, j)
  }

  predicate SamePlace(a: Posting, b: Posting) {
    a.block == b.block && a.index == b.index
  }

  predicate UniquePlaces(qs: seq<Posting>) {
    forall i, j :: 0 <= i < j < |qs| ==> !SamePlace(qs[i], qs[j])
  }

  /** The hash that orders the set tells apart the outputs of the chain. */
  ghost predicate KeysTellApart(key: OutRef -> nat, qs: seq<Posting>) {
    forall a, b, m: nat, n: nat {:trigger RefOf(a, m), RefOf(b, n)} ::
      a in qs && b in qs && m < |a.tx.txOuts| && n < |b.tx.txOuts| ==>
        key(RefOf(a, m)) == key(RefOf(b, n)) ==> RefOf(a, m) == RefOf(b, n)
  }

  ghost predicate Scannable(key: OutRef -> nat, qs: seq<Posting>) {
    UniquePlaces(qs) && KeysTellApart(key, qs)
  }

  lemma PrefixIsScannable(key: OutRef -> nat, qs: seq<Posting>, n: nat)
    requires Scannable(key, qs) && n <= |qs|
    ensures Scannable(key, qs[..n])
  {
    assert forall q :: q in qs[..n] ==> q in qs;
  }

  lemma SortedCons(key: OutRef -> nat, head: TxOutPoint, tail: seq<TxOutPoint>)
    ensures Sorted(key, [head] + tail) <==>
            Sorted(key, tail) && forall x :: x in tail ==> key(Ref(head)) < key(Ref(x))
  {
    var s := [head] + tail;
    if Sorted(key, s) {
      forall i, j | 0 <= i < j < |tail| ensures key(Ref(tail[i])) < key(Ref(tail[j])) {
        assert s[i + 1] == tail[i] && s[j + 1] == tail[j];
      }
      forall x | x in tail ensures key(Ref(head)) < key(Ref(x)) {
        var j :| 0 <= j < |tail| && tail[j] == x;
        assert s[0] == head && s[j + 1] == x;
      }
    }
  }

  lemma {:induction false} InsertMembers(key: OutRef -> nat, outs: seq<TxOutPoint>, x: TxOutPoint)
    requires Sorted(key, outs)
    requires forall y :: y in outs ==> key(Ref(y)) != key(Ref(x))
    ensures Sorted(key, Insert(key, outs, x))
    ensures forall y :: y in Insert(key, outs, x) <==> y == x || y in outs
  {
    if outs != [] {
      assert outs == [outs[0]] + outs[1..];
      SortedCons(key, outs[0], outs[1..]);
      if key(Ref(x)) < key(Ref(outs[0])) {
        SortedCons(key, x, outs);
      } else {
        InsertMembers(key, outs[1..], x);
        SortedCons(key, outs[0], Insert(key, outs[1..], x));
      }
    }
  }

  lemma {:induction false} EraseMembers(key: OutRef -> nat, outs: seq<TxOutPoint>, r: OutRef)
    requires Sorted(key, outs)
    ensures Sorted(key, Erase(outs, r))
    ensures forall y :: y in Erase(outs, r) <==> y in outs && Ref(y) != r
  {
    if outs != [] {
      assert outs == [outs[0]] + outs[1..];
      SortedCons(key, outs[0], outs[1..]);
      if Ref(outs[0]) != r {
        EraseMembers(key, outs[1..], r);
        SortedCons(key, outs[0], Erase(outs[1..], r));
      }
    }
  }

  /** `x` is one of the first `n` outputs of `q` that the address asks for. */
  predicate AddedBy(address: string, q: Posting, n: nat, x: TxOutPoint)
    requires n <= |q.tx.txOuts|
  {
    exists j :: 0 <= j < n && x == OutOf(q, j) && Wanted(address, q.tx.txOuts[j].address)
  }

  lemma {:induction false} InsertOutputsMembers(
    key: OutRef -> nat, address: string, outs: seq<TxOutPoint>, q: Posting, n: nat)
    requires n <= |q.tx.txOuts| && Sorted(key, outs)
    requires forall y, j: nat :: y in outs && j < |q.tx.txOuts| ==> key(Ref(y)) != key(RefOf(q, j))
    requires forall i: nat, j: nat :: i < j < |q.tx.txOuts| ==> key(RefOf(q, i)) != key(RefOf(q, j))
    ensures Sorted(key, InsertOutputs(key, address, outs, q, n))
    ensures forall y :: y in InsertOutputs(key, address, outs, q, n) <==>
                        y in outs || AddedBy(address, q, n, y)
  {
    if n > 0 {
      InsertOutputsMembers(key, address, outs, q, n - 1);
      var rest := InsertOutputs(key, address, outs, q, n - 1);
      var x := OutOf(q, n - 1);
      assert Ref(x) == RefOf(q, n - 1);
      forall y | y in rest ensures key(Ref(y)) != key(Ref(x)) {
        if y !in outs {
          var j :| 0 <= j < n - 1 && y == OutOf(q, j);
          assert Ref(y) == RefOf(q, j);
        }
      }
      if Wanted(address, q.tx.txOuts[n - 1].address) {
        InsertMembers(key, rest, x);
      }
      forall y
        ensures AddedBy(address, q, n, y) <==>
                (AddedBy(address, q, n - 1, y) || (y == x && Wanted(address, q.tx.txOuts[n - 1].address)))
      {
      }
    }
  }

  lemma NamedInLonger(ins: seq<TxIn>, r: OutRef)
    requires ins != []
    ensures NamedIn(ins, r) <==> NamedIn(ins[..|ins| - 1], r) || Ref(ins[|ins| - 1].txOutPt) == r
  {
    var n := |ins| - 1;
    if NamedIn(ins[..n], r) {
      var k :| 0 <= k < n && Ref(ins[..n][k].txOutPt) == r;
      assert Ref(ins[k].txOutPt) == r;
    }
    if NamedIn(ins, r) && Ref(ins[n].txOutPt) != r {
      var k :| 0 <= k < |ins| && Ref(ins[k].txOutPt) == r;
      assert Ref(ins[..n][k].txOutPt) == r;
    }
  }

  lemma {:induction false} EraseInputsMembers(key: OutRef -> nat, outs: seq<TxOutPoint>, ins: seq<TxIn>)
    requires Sorted(key, outs)
    ensures Sorted(key, EraseInputs(outs, ins))
    ensures forall y :: y in EraseInputs(outs, ins) <==> y in outs && !NamedIn(ins, Ref(y))
  {
    if ins != [] {
      var n := |ins| - 1;
      EraseInputsMembers(key, outs, ins[..n]);
      EraseMembers(key, EraseInputs(outs, ins[..n]), Ref(ins[n].txOutPt));
      forall y ensures y in EraseInputs(outs, ins) <==> y in outs && !NamedIn(ins, Ref(y)) {
        NamedInLonger(ins, Ref(y));
      }
    }
  }

  predicate WantedOut(address: string, x: TxOutPoint) {
    x.address.Some? && Wanted(address, x.address.value)
  }

  /** The scan meets its meaning: it returns, in key order, exactly the outputs the address asks
      for that exist and that no non-coinbase transaction at or after their creation names. */
  lemma {:induction false} ScanFindsUnspent(key: OutRef -> nat, address: string, qs: seq<Posting>)
    requires Scannable(key, qs)
    ensures Sorted(key, Scan(key, address, qs))
    ensures forall x :: x in Scan(key, address, qs) <==> WantedOut(address, x) && IsUnspent(qs, x)
  {
    if qs != [] {
      var n := |qs| - 1;
      var q := qs[n];
      PrefixIsScannable(key, qs, n);
      ScanFindsUnspent(key, address, qs[..n]);
      var outs := Scan(key, address, qs[..n]);
      NewOutputsAreFresh(key, qs, outs);
      InsertOutputsMembers(key, address, outs, q, |q.tx.txOuts|);
      var added := InsertOutputs(key, address, outs, q, |q.tx.txOuts|);
      EraseInputsMembers(key, added, q.tx.txIns);
      forall x ensures x in Scan(key, address, qs) <==> WantedOut(address, x) && IsUnspent(qs, x) {
        UnspentStep(address, qs, x);
      }
    }
  }

  ghost predicate AllUnspent(outs: seq<TxOutPoint>, qs: seq<Posting>) {
    forall x :: x in outs ==> IsUnspent(qs, x)
  }

  /** Outputs of the last transaction are new to a set built from the earlier ones. */
  lemma NewOutputsAreFresh(key: OutRef -> nat, qs: seq<Posting>, outs: seq<TxOutPoint>)
    requires qs != [] && Scannable(key, qs) && AllUnspent(outs, qs[..|qs| - 1])
    ensures var q := qs[|qs| - 1];
            && (forall y, j: nat :: y in outs && j < |q.tx.txOuts| ==> key(Ref(y)) != key(RefOf(q, j)))
            && (forall i: nat, j: nat :: i < j < |q.tx.txOuts| ==> key(RefOf(q, i)) != key(RefOf(q, j)))
  {
    var n := |qs| - 1;
    var q := qs[n];
    forall y, j: nat | y in outs && j < |q.tx.txOuts| ensures key(Ref(y)) != key(RefOf(q, j)) {
      var i: nat, m: nat :| UnspentFrom(qs[..n], y, i, m);
      assert Ref(y) == RefOf(qs[i], m) && !SamePlace(qs[i], q);
      assert qs[i] in qs && q in qs;
    }
    forall i: nat, j: nat | i < j < |q.tx.txOuts| ensures key(RefOf(q, i)) != key(RefOf(q, j)) {
      assert q in qs && RefOf(q, i) != RefOf(q, j);
    }
  }

  /** How the meaning changes when one more transaction is scanned. */
  lemma UnspentStep(address: string, qs: seq<Posting>, x: TxOutPoint)
    requires qs != []
    ensures var q := qs[|qs| - 1];
            WantedOut(address, x) && IsUnspent(qs, x) <==>
            && ((WantedOut(address, x) && IsUnspent(qs[..|qs| - 1], x))
                || AddedBy(address, q, |q.tx.txOuts|, x))
            && !Spends(q.tx, Ref(x))
  {
    var n := |qs| - 1;
    var q := qs[n];
    if WantedOut(address, x) && IsUnspent(qs, x) {
      var i: nat, j: nat :| UnspentFrom(qs, x, i, j);
      assert i < n ==> UnspentFrom(qs[..n], x, i, j);
      assert i == n ==> AddedBy(address, q, |q.tx.txOuts|, x);
      assert !Spends(qs[n].tx, Ref(x));
    }
    if WantedOut(address, x) && IsUnspent(qs[..n], x) && !Spends(q.tx, Ref(x)) {
      var i: nat, j: nat :| UnspentFrom(qs[..n], x, i, j);
      forall k | i <= k < |qs| ensures !Spends(qs[k].tx, Ref(x)) {
        assert k < n ==> qs[..n][k] == qs[k];
      }
      assert UnspentFrom(qs, x, i, j);
    }
    if AddedBy(address, q, |q.tx.txOuts|, x) && !Spends(q.tx, Ref(x)) {
      var j :| 0 <= j < |q.tx.txOuts| && x == OutOf(q, j);
      assert UnspentFrom(qs, x, n, j);
    }
  }

  // ---- On chains ----

  predicate UniqueIndices(chain: seq<Block>) {
    forall i, j :: 0 <= i < j < |chain| ==> chain[i].index != chain[j].index
  }

  /** Every posting comes from a block of the chain. */
  lemma {:induction false} PostingHasBlock(chain: seq<Block>, k: nat) returns (i: nat)
    requires k < |Postings(chain)|
    ensures i < |chain| && Postings(chain)[k].block == chain[i].index
  {
    var n := |chain| - 1;
    if k < |Postings(chain[..n])| {
      i := PostingHasBlock(chain[..n], k);
    } else {
      i := n;
    }
  }

  lemma {:induction false} UniqueIndicesUniquePlaces(chain: seq<Block>)
    requires UniqueIndices(chain)
    ensures UniquePlaces(Postings(chain))
  {
    if chain != [] {
      var n := |chain| - 1;
      UniqueIndicesUniquePlaces(chain[..n]);
      var a, b := Postings(chain[..n]), BlockPostings(chain[n]);
      forall i, j | 0 <= i < j < |a + b| ensures !SamePlace((a + b)[i], (a + b)[j]) {
        if i < |a| <= j {
          var k := PostingHasBlock(chain[..n], i);
        }
      }
    }
  }

  /** On a chain with unique block indices: the scan returns exactly the unspent outputs. */
  lemma UnspentOfChain(key: OutRef -> nat, address: string, chain: seq<Block>, x: TxOutPoint)
    requires UniqueIndices(chain) && KeysTellApart(key, Postings(chain))
    ensures x in Scan(key, address, Postings(chain)) <==> WantedOut(address, x) && IsUnspent(Postings(chain), x)
  {
    UniqueIndicesUniquePlaces(chain);
    ScanFindsUnspent(key, address, Postings(chain));
  }

  // ---- One address against all addresses ----

  function ForAddress(outs: seq<TxOutPoint>, address: string): seq<TxOutPoint> {
    if outs == [] then []
    else (if WantedOut(address, outs[0]) then [outs[0]] else []) + ForAddress(outs[1..], address)
  }

  lemma {:induction false} ForAddressMembers(key: OutRef -> nat, outs: seq<TxOutPoint>, address: string)
    requires Sorted(key, outs)
    ensures Sorted(key, ForAddress(outs, address))
    ensures forall x :: x in ForAddress(outs, address) <==> x in outs && WantedOut(address, x)
  {
    if outs != [] {
      assert outs == [outs[0]] + outs[1..];
      ForAddressMembers(key, outs[1..], address);
      SortedCons(key, outs[0], outs[1..]);
      SortedCons(key, outs[0], ForAddress(outs[1..], address));
    }
  }

  /** Strictly ordered lists with the same members are the same list. */
  lemma {:induction false} SortedListsAgree(key: OutRef -> nat, a: seq<TxOutPoint>, b: seq<TxOutPoint>)
    requires Sorted(key, a) && Sorted(key, b)
    requires forall x :: x in a <==> x in b
    ensures a == b
  {
    assert |a| > 0 ==> a[0] in b;
    assert |b| > 0 ==> b[0] in a;
    if a != [] && b != [] {
      assert a == [a[0]] + a[1..] && b == [b[0]] + b[1..];
      SortedCons(key, a[0], a[1..]);
      SortedCons(key, b[0], b[1..]);
      assert a[0] == b[0];
      assert forall x :: x in a[1..] ==> x in a && x in b && x != b[0];
      assert forall x :: x in b[1..] ==> x in b && x in a && x != a[0];
      SortedListsAgree(key, a[1..], b[1..]);
    }
  }

  /** Scanning for one address equals scanning for all and keeping that address, order included. */
  lemma ScanOneIsScanAllFiltered(key: OutRef -> nat, address: string, qs: seq<Posting>)
    requires Scannable(key, qs)
    ensures Scan(key, address, qs) == ForAddress(Scan(key, "", qs), address)
  {
    ScanFindsUnspent(key, address, qs);
    ScanFindsUnspent(key, "", qs);
    ForAddressMembers(key, Scan(key, "", qs), address);
    SortedListsAgree(key, Scan(key, address, qs), ForAddress(Scan(key, "", qs), address));
  }
}
