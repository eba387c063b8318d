/**
 The cumulative submit and confirm counts of a blockchain run (gumby/post_process_blockchain.py,
 compute_tx_cumulative_stats).  Times are whole milliseconds.
 */
module CumulativeStats {
  import opened Counting

  const UNCONFIRMED: int := -1
  const CUMULATIVE_WINDOW: int := 100

  /** The fields of a transaction that are read: submit time and confirm time. */
  datatype Transaction = Transaction(submit: int, confirm: int)

  datatype Row = Row(time: int, submitted: nat, confirmed: nat)

  // ---------------------------------------------------------------------------------------------
  // What the table should hold
  // ---------------------------------------------------------------------------------------------

  /** Transactions submitted by time t. */
  function SubmittedBy(transactions: seq<Transaction>, t: int): nat {
    if transactions == [] then
      0
    else
      var last := transactions[|transactions| - 1];
      SubmittedBy(transactions[..|transactions| - 1], t) + if last.submit <= t then 1 else 0
  }

  /** Transactions confirmed by time t. */
  function ConfirmedBy(transactions: seq<Transaction>, t: int): nat {
    if transactions == [] then
      0
    else
      var last := transactions[|transactions| - 1];
      ConfirmedBy(transactions[..|transactions| - 1], t)
      + if last.confirm != UNCONFIRMED && last.confirm <= t then 1 else 0
  }

  /** Transactions ever confirmed. */
  function Confirmed(transactions: seq<Transaction>): nat {
    if transactions == [] then
      0
    else
      Confirmed(transactions[..|transactions| - 1])
      + if transactions[|transactions| - 1].confirm != UNCONFIRMED then 1 else 0
  }

  /** Something is submitted or confirmed after time t. */
  predicate BusyAfter(transactions: seq<Transaction>, t: int) {
    exists x :: x in transactions && (x.submit > t || (x.confirm != UNCONFIRMED && x.confirm > t))
  }

  /**
   A row of zeros, then one row for every window up to and including the first that ends when nothing is left to
   happen.
   */
  ghost predicate IsTable(transactions: seq<Transaction>, stats: seq<Row>) {
    && stats != []
    && stats[0] == Row(0, 0, 0)
    && (forall k :: 1 <= k < |stats| ==> stats[k] == TableRow(transactions, k))
    && (forall k: nat :: k < |stats| - 1 <==> MoreAfter(transactions, k))
  }

  /** Another window is due after the k-th. */
  predicate MoreAfter(transactions: seq<Transaction>, k: nat) {
    Confirmed(transactions) > 0 && BusyAfter(transactions, CUMULATIVE_WINDOW * k)
  }

  function TableRow(transactions: seq<Transaction>, k: nat): Row {
    var t := CUMULATIVE_WINDOW * k;
    Row(t, SubmittedBy(transactions, t), ConfirmedBy(transactions, t))
  }

  // ---------------------------------------------------------------------------------------------
  // Sorted lists of times
  // ---------------------------------------------------------------------------------------------

  predicate Sorted(s: seq<int>) {
    forall i, j :: 0 <= i < j < |s| ==> s[i] <= s[j]
  }

  function CountUpTo(s: seq<int>, t: int): (n: nat)
    ensures n <= |s|
  {
    if s == [] then 0 else CountUpTo(s[..|s| - 1], t) + if s[|s| - 1] <= t then 1 else 0
  }

  /** Python's sorted. */
  function SortedCopy(s: seq<int>): (r: seq<int>)
    ensures Sorted(r) && |r| == |s|
  {
    if s == [] then [] else Insert(SortedCopy(s[..|s| - 1]), s[|s| - 1])
  }

  function Insert(s: seq<int>, x: int): (r: seq<int>)
    requires Sorted(s)
    ensures Sorted(r) && |r| == |s| + 1
    ensures r[|s|] == if s == [] || s[|s| - 1] <= x then x else s[|s| - 1]
  {
    if s == [] || s[|s| - 1] <= x then s + [x] else Insert(s[..|s| - 1], x) + [s[|s| - 1]]
  }

  /** Counting does not see the order. */
  lemma {:induction false} CountInsert(s: seq<int>, x: int, t: int)
    requires Sorted(s)
    ensures CountUpTo(Insert(s, x), t) == CountUpTo(s, t) + if x <= t then 1 else 0
  {
    if s == [] || s[|s| - 1] <= x {
      assert (s + [x])[..|s|] == s;
    } else {
      var init := s[..|s| - 1];
      CountInsert(init, x, t);
      var r := Insert(init, x) + [s[|s| - 1]];
      assert r[..|r| - 1] == Insert(init, x);
    }
  }

  lemma {:induction false} CountSorted(s: seq<int>, t: int)
    ensures CountUpTo(SortedCopy(s), t) == CountUpTo(s, t)
  {
    if s != [] {
      CountSorted(s[..|s| - 1], t);
      CountInsert(SortedCopy(s[..|s| - 1]), s[|s| - 1], t);
    }
  }

  /** In a sorted list the count is the index of the first later time. */
  lemma {:induction false} CountIsIndex(s: seq<int>, index: nat, t: int)
    requires Sorted(s) && index <= |s|
    requires forall i :: 0 <= i < index ==> s[i] <= t
    requires index < |s| ==> s[index] > t
    ensures CountUpTo(s, t) == index
  {
    if s != [] {
      CountIsIndex(s[..|s| - 1], if index < |s| then index else index - 1, t);
    }
  }

  // ---------------------------------------------------------------------------------------------
  // The method
  // ---------------------------------------------------------------------------------------------

  function SubmitTimes(transactions: seq<Transaction>): seq<int> {
    if transactions == [] then
      []
    else
      SubmitTimes(transactions[..|transactions| - 1]) + [transactions[|transactions| - 1].submit]
  }

  function ConfirmTimes(transactions: seq<Transaction>): seq<int> {
    if transactions == [] then
      []
    else
      var last := transactions[|transactions| - 1];
      ConfirmTimes(transactions[..|transactions| - 1]) + if last.confirm != UNCONFIRMED then [last.confirm] else []
  }

  lemma {:induction false} TimesCounted(transactions: seq<Transaction>, t: int)
    ensures CountUpTo(SubmitTimes(transactions), t) == SubmittedBy(transactions, t)
    ensures CountUpTo(ConfirmTimes(transactions), t) == ConfirmedBy(transactions, t)
  {
    if transactions != [] {
      var init, last := transactions[..|transactions| - 1], transactions[|transactions| - 1];
      TimesCounted(init, t);
      assert (SubmitTimes(init) + [last.submit])[..|SubmitTimes(init)|] == SubmitTimes(init);
      assert (ConfirmTimes(init) + [last.confirm])[..|ConfirmTimes(init)|] == ConfirmTimes(init);
      assert ConfirmTimes(init) + [] == ConfirmTimes(init);
    }
  }

  lemma {:induction false} TimesLengths(transactions: seq<Transaction>)
    ensures |SubmitTimes(transactions)| == |transactions|
    ensures |ConfirmTimes(transactions)| == Confirmed(transactions) <= |transactions|
  {
    if transactions != [] {
      TimesLengths(transactions[..|transactions| - 1]);
    }
  }

  function Max(a: int, b: int): int {
    if a >= b then a else b
  }

  /** The two lists are the sorted submit and confirm times. */
  predicate Lists(transactions: seq<Transaction>, submits: seq<int>, confirms: seq<int>) {
    submits == SortedCopy(SubmitTimes(transactions)) && confirms == SortedCopy(ConfirmTimes(transactions))
  }

  lemma ListsCounted(transactions: seq<Transaction>, submits: seq<int>, confirms: seq<int>, t: int)
    requires Lists(transactions, submits, confirms)
    ensures Sorted(submits) && |submits| == |transactions| && CountUpTo(submits, t) == SubmittedBy(transactions, t)
    ensures Sorted(confirms) && |confirms| == Confirmed(transactions)
    ensures CountUpTo(confirms, t) == ConfirmedBy(transactions, t)
  {
    TimesLengths(transactions);
    CountSorted(SubmitTimes(transactions), t);
    CountSorted(ConfirmTimes(transactions), t);
    TimesCounted(transactions, t);
  }

  lemma LastMeaning(s: seq<int>, t: int)
    requires Sorted(s) && s != []
    ensures s[|s| - 1] <= t <==> CountUpTo(s, t) == |s|
  {
    if s[|s| - 1] <= t {
      CountIsIndex(s, |s|, t);
    }
  }

  /** The counts are complete once nothing more happens, and only then. */
  lemma {:induction false} QuietIffComplete(transactions: seq<Transaction>, t: int)
    ensures SubmittedBy(transactions, t) <= |transactions| && ConfirmedBy(transactions, t) <= Confirmed(transactions)
    ensures !BusyAfter(transactions, t)
       <==> SubmittedBy(transactions, t) == |transactions| && ConfirmedBy(transactions, t) == Confirmed(transactions)
  {
    if transactions != [] {
      var init, last := transactions[..|transactions| - 1], transactions[|transactions| - 1];
      QuietIffComplete(init, t);
      assert transactions == init + [last];
      assert BusyAfter(transactions, t)
        <==> BusyAfter(init, t) || last.submit > t || (last.confirm != UNCONFIRMED && last.confirm > t);
    }
  }

  /** The guard of the loop. */
  lemma GuardMeaning(transactions: seq<Transaction>, submits: seq<int>, confirms: seq<int>, t: int)
    requires Lists(transactions, submits, confirms) && submits != [] && confirms != []
    ensures t < Max(submits[|submits| - 1], confirms[|confirms| - 1]) <==> BusyAfter(transactions, t)
  {
    ListsCounted(transactions, submits, confirms, t);
    LastMeaning(submits, t);
    LastMeaning(confirms, t);
    QuietIffComplete(transactions, t);
  }

  /** Two indices that stand at the first times after t hold the counts of that time. */
  lemma IndicesCount(transactions: seq<Transaction>, submits: seq<int>, confirms: seq<int>, i: nat, j: nat, k: nat)
    requires Lists(transactions, submits, confirms)
    requires AllBy(submits, i, CUMULATIVE_WINDOW * k) && (i < |submits| ==> submits[i] > CUMULATIVE_WINDOW * k)
    requires AllBy(confirms, j, CUMULATIVE_WINDOW * k) && (j < |confirms| ==> confirms[j] > CUMULATIVE_WINDOW * k)
    ensures TableRow(transactions, k) == Row(CUMULATIVE_WINDOW * k, i, j)
  {
    var t := CUMULATIVE_WINDOW * k;
    ListsCounted(transactions, submits, confirms, t);
    CountIsIndex(submits, i, t);
    CountIsIndex(confirms, j, t);
  }

  predicate AllBy(s: seq<int>, n: nat, t: int) {
    n <= |s| && forall i :: 0 <= i < n ==> s[i] <= t
  }

  /** compute_tx_cumulative_stats. */
  method ComputeTxCumulativeStats(transactions: seq<Transaction>) returns (stats: seq<Row>)
    ensures IsTable(transactions, stats)
  {
    var submits, confirms := [], [];
    for k := 0 to |transactions|
      invariant submits == SubmitTimes(transactions[..k]) && confirms == ConfirmTimes(transactions[..k])
    {
      assert transactions[..k + 1][..k] == transactions[..k];
      submits := submits + [transactions[k].submit];
      if transactions[k].confirm != UNCONFIRMED {
        confirms := confirms + [transactions[k].confirm];
      }
    }
    assert transactions[..|transactions|] == transactions;
    TimesLengths(transactions);
    stats := CountInWindows(transactions, SortedCopy(submits), SortedCopy(confirms));
  }

  /** The two-pointer loop over the sorted times. */
  method CountInWindows(ghost transactions: seq<Transaction>, submits: seq<int>, confirms: seq<int>)
    returns (stats: seq<Row>)
    requires Lists(transactions, submits, confirms)
    requires submits == [] ==> confirms == []
    requires |confirms| == Confirmed(transactions)
    ensures IsTable(transactions, stats)
  {
    hide Confirmed;
    hide Lists;
    hide Sorted;
    hide BusyAfter;
    hide TableRow;
    var curTime := 0;
    var submittedTxIndex, confirmedTxIndex := 0, 0;
    var submittedCount, confirmedCount := 0, 0;
    stats := [Row(0, 0, 0)];
    if submits == [] || confirms == [] {
      return;
    }
    while curTime < Max(submits[|submits| - 1], confirms[|confirms| - 1])
      invariant stats != [] && stats[0] == Row(0, 0, 0) && curTime == CUMULATIVE_WINDOW * (|stats| - 1)
      invariant submittedCount == submittedTxIndex && AllBy(submits, submittedTxIndex, curTime)
      invariant confirmedCount == confirmedTxIndex && AllBy(confirms, confirmedTxIndex, curTime)
      invariant forall k :: 1 <= k < |stats| ==> stats[k] == TableRow(transactions, k)
      invariant forall k: nat :: k < |stats| - 1 ==> MoreAfter(transactions, k)
      decreases Max(submits[|submits| - 1], confirms[|confirms| - 1]) - curTime
    {
      GuardMeaning(transactions, submits, confirms, curTime);
      while submittedTxIndex < |submits| && submits[submittedTxIndex] <= curTime + CUMULATIVE_WINDOW
        invariant submittedCount == submittedTxIndex
        invariant AllBy(submits, submittedTxIndex, curTime + CUMULATIVE_WINDOW)
      {
        submittedTxIndex := submittedTxIndex + 1;
        submittedCount := submittedCount + 1;
      }
      while confirmedTxIndex < |confirms| && confirms[confirmedTxIndex] <= curTime + CUMULATIVE_WINDOW
        invariant confirmedCount == confirmedTxIndex
        invariant AllBy(confirms, confirmedTxIndex, curTime + CUMULATIVE_WINDOW)
      {
        confirmedTxIndex := confirmedTxIndex + 1;
        confirmedCount := confirmedCount + 1;
      }
      IndicesCount(transactions, submits, confirms, submittedTxIndex, confirmedTxIndex, |stats|);
      curTime := curTime + CUMULATIVE_WINDOW;
      stats := stats + [Row(curTime, submittedCount, confirmedCount)];
    }
    QuietFromHere(transactions, submits, confirms, |stats| - 1);
  }

  lemma QuietFromHere(transactions: seq<Transaction>, submits: seq<int>, confirms: seq<int>, n: nat)
    requires Lists(transactions, submits, confirms) && submits != [] && confirms != []
    requires CUMULATIVE_WINDOW * n >= Max(submits[|submits| - 1], confirms[|confirms| - 1])
    ensures forall k: nat :: k >= n ==> !MoreAfter(transactions, k)
  {
    forall k: nat | k >= n ensures !MoreAfter(transactions, k) {
      GuardMeaning(transactions, submits, confirms, CUMULATIVE_WINDOW * k);
    }
  }

  // ---------------------------------------------------------------------------------------------
  // What the table tells
  // ---------------------------------------------------------------------------------------------

  /** There is just one table. */
  lemma TableUnique(transactions: seq<Transaction>, a: seq<Row>, b: seq<Row>)
    requires IsTable(transactions, a) && IsTable(transactions, b)
    ensures a == b
  {
    NotShorter(transactions, a, b);
    NotShorter(transactions, b, a);
  }

  lemma NotShorter(transactions: seq<Transaction>, a: seq<Row>, b: seq<Row>)
    requires IsTable(transactions, a) && IsTable(transactions, b)
    ensures |a| >= |b|
  {
    hide MoreAfter;
    var k: nat := |a| - 1;
    assert k < |b| - 1 <==> MoreAfter(transactions, k);
  }

  /** Reordering the transactions changes nothing. */
  lemma {:induction false} CountsPermuted(a: seq<Transaction>, b: seq<Transaction>, t: int)
    requires multiset(a) == multiset(b)
    ensures SubmittedBy(a, t) == SubmittedBy(b, t) && ConfirmedBy(a, t) == ConfirmedBy(b, t)
    ensures Confirmed(a) == Confirmed(b)
    decreases |a|
  {
    if a == [] {
      assert |multiset(b)| == 0;
    } else {
      var k := LastSomewhere(a, b);
      var rest := b[..k] + b[k + 1..];
      CountsPermuted(a[..|a| - 1], rest, t);
      CountWithout(b, k, t);
    }
  }

  lemma {:induction false} CountWithout(b: seq<Transaction>, k: nat, t: int)
    requires k < |b|
    ensures var rest := b[..k] + b[k + 1..];
            && SubmittedBy(b, t) == SubmittedBy(rest, t) + (if b[k].submit <= t then 1 else 0)
            && ConfirmedBy(b, t)
               == ConfirmedBy(rest, t) + (if b[k].confirm != UNCONFIRMED && b[k].confirm <= t then 1 else 0)
            && Confirmed(b) == Confirmed(rest) + (if b[k].confirm != UNCONFIRMED then 1 else 0)
  {
    var rest := b[..k] + b[k + 1..];
    if k == |b| - 1 {
      assert rest == b[..k];
    } else {
      var init := b[..|b| - 1];
      CountWithout(init, k, t);
      assert rest[..|rest| - 1] == init[..k] + init[k + 1..];
    }
  }

  lemma PermutedSameTable(a: seq<Transaction>, b: seq<Transaction>, stats: seq<Row>)
    requires multiset(a) == multiset(b) && IsTable(a, stats)
    ensures IsTable(b, stats)
  {
    SameMembers(a, b);
    CountsPermuted(a, b, 0);
    hide Confirmed;
    forall k | 1 <= k < |stats| ensures stats[k] == TableRow(b, k) {
      CountsPermuted(a, b, CUMULATIVE_WINDOW * k);
    }
    assert forall t: int :: BusyAfter(a, t) <==> BusyAfter(b, t);
    forall k: nat ensures k < |stats| - 1 <==> MoreAfter(b, k) {
      assert k < |stats| - 1 <==> MoreAfter(a, k);
    }
  }

  /**
   The last row counts everything, except that a run without a confirmation, or one that is over at time 0,
   gets the row of zeros alone.
   */
  lemma LastRowComplete(transactions: seq<Transaction>, stats: seq<Row>)
    requires IsTable(transactions, stats)
    ensures var last := stats[|stats| - 1];
            (last.submitted == |transactions| && last.confirmed == Confirmed(transactions))
            <==> (transactions == [] || (Confirmed(transactions) > 0 && BusyAfter(transactions, 0)))
  {
    hide SubmittedBy;
    hide ConfirmedBy;
    hide BusyAfter;
    var n := |stats| - 1;
    QuietIffComplete(transactions, CUMULATIVE_WINDOW * n);
    assert 0 < n <==> MoreAfter(transactions, 0);
    assert n < n <==> MoreAfter(transactions, n);
  }

  /** If nothing is confirmed before it is submitted, no row has more confirmed than submitted. */
  lemma NeverAhead(transactions: seq<Transaction>, stats: seq<Row>)
    requires IsTable(transactions, stats)
    requires forall x :: x in transactions && x.confirm != UNCONFIRMED ==> x.submit <= x.confirm
    ensures forall k :: 0 <= k < |stats| ==> stats[k].confirmed <= stats[k].submitted
  {
    forall k | 1 <= k < |stats| ensures stats[k].confirmed <= stats[k].submitted {
      ConfirmedAfterSubmitted(transactions, CUMULATIVE_WINDOW * k);
      assert stats[k] == TableRow(transactions, k);
    }
  }

  lemma {:induction false} ConfirmedAfterSubmitted(transactions: seq<Transaction>, t: int)
    requires forall x :: x in transactions && x.confirm != UNCONFIRMED ==> x.submit <= x.confirm
    ensures ConfirmedBy(transactions, t) <= SubmittedBy(transactions, t)
  {
    if transactions != [] {
      assert transactions[|transactions| - 1] in transactions;
      ConfirmedAfterSubmitted(transactions[..|transactions| - 1], t);
    }
  }
}
