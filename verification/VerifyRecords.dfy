/** File records of the installation inventory: their canonical order, comparison, and the signed baseline. */
module VerifyRecords {

  datatype Record = Record(path: string, size: int, sha256: string)

  // ----- the order of paths

  predicate Less(a: string, b: string) {
    |b| > 0 && (|a| == 0 || a[0] < b[0] || (a[0] == b[0] && Less(a[1..], b[1..])))
  }

  lemma {:induction false} LessTotal(a: string, b: string)
    ensures a == b || Less(a, b) || Less(b, a)
    ensures !(Less(a, b) && Less(b, a)) && !Less(a, a)
    decreases |a|
  {
    if |a| > 0 {
      if |b| > 0 && a[0] == b[0] {
        LessTotal(a[1..], b[1..]);
        assert a == [a[0]] + a[1..] && b == [b[0]] + b[1..];
      }
      LessTotal(a[1..], a[1..]);
    }
  }

  lemma {:induction false} LessTransitive(a: string, b: string, c: string)
    requires Less(a, b) && Less(b, c)
    ensures Less(a, c)
    decreases |a|
  {
    if |a| > 0 && a[0] == b[0] == c[0] {
      LessTransitive(a[1..], b[1..], c[1..]);
    }
  }

  // ----- sorting

  /** No two records have the same path. */
  ghost predicate Distinct(records: seq<Record>) {
    forall i, j :: 0 <= i < j < |records| ==> records[i].path != records[j].path
  }

  ghost predicate Sorted(records: seq<Record>) {
    forall i, j :: 0 <= i < j < |records| ==> !Less(records[j].path, records[i].path)
  }

  function Insert(r: Record, records: seq<Record>): seq<Record> {
    if records == [] || !Less(records[0].path, r.path) then [r] + records
    else [records[0]] + Insert(r, records[1..])
  }

  /** The records ordered by path. With distinct paths there is only one such order, so it does not matter
      which sorting algorithm finds it, see `SortedIsUnique`. */
  function Canonical(records: seq<Record>): seq<Record> {
    if records == [] then [] else Insert(records[0], Canonical(records[1..]))
  }

  lemma {:induction false} InsertContents(r: Record, records: seq<Record>)
    ensures multiset(Insert(r, records)) == multiset(records) + multiset{r}
    decreases |records|
  {
    if records != [] {
      assert records == [records[0]] + records[1..];
      InsertContents(r, records[1..]);
    }
  }

  lemma {:induction false} CanonicalContents(records: seq<Record>)
    ensures multiset(Canonical(records)) == multiset(records) && |Canonical(records)| == |records|
    decreases |records|
  {
    if records != [] {
      assert records == [records[0]] + records[1..];
      CanonicalContents(records[1..]);
      InsertContents(records[0], Canonical(records[1..]));
      assert |multiset(Canonical(records))| == |Canonical(records)| && |multiset(records)| == |records|;
    }
  }

  /** A first record that no other one precedes, in front of sorted ones. */
  lemma {:induction false} SortedCons(r: Record, records: seq<Record>)
    requires Sorted(records) && forall x :: x in records ==> !Less(x.path, r.path)
    ensures Sorted([r] + records)
  {
  }

  lemma {:induction false} InsertSorted(r: Record, records: seq<Record>)
    requires Sorted(records)
    ensures Sorted(Insert(r, records))
    decreases |records|
  {
    if records == [] || !Less(records[0].path, r.path) {
      forall x | x in records
        ensures !Less(x.path, r.path)
      {
        var i :| 0 <= i < |records| && records[i] == x;
        if Less(x.path, r.path) {
          BelowBoth(x.path, records[0].path, r.path);
        }
      }
      SortedCons(r, records);
    } else {
      InsertSorted(r, records[1..]);
      InsertContents(r, records[1..]);
      forall x | x in Insert(r, records[1..])
        ensures !Less(x.path, records[0].path)
      {
        assert x in multiset(Insert(r, records[1..]));
        LessTotal(r.path, records[0].path);
      }
      SortedCons(records[0], Insert(r, records[1..]));
    }
  }

  /** x < r and not x < h give h < r or h == x. */
  lemma {:induction false} BelowBoth(x: string, h: string, r: string)
    requires Less(x, r) && !Less(x, h)
    ensures Less(h, r)
  {
    LessTotal(x, h);
    if Less(h, x) {
      LessTransitive(h, x, r);
    }
  }

  lemma {:induction false} CanonicalSorted(records: seq<Record>)
    ensures Sorted(Canonical(records))
    decreases |records|
  {
    if records != [] {
      CanonicalSorted(records[1..]);
      InsertSorted(records[0], Canonical(records[1..]));
    }
  }

  lemma {:induction false} DistinctIsUpToOrder(a: seq<Record>, b: seq<Record>)
    requires multiset(a) == multiset(b) && Distinct(a)
    ensures Distinct(b)
  {
    forall i, j | 0 <= i < j < |b|
      ensures b[i].path != b[j].path
    {
      if b[i].path == b[j].path {
        assert b[i] in multiset(b) && b[j] in multiset(b);
        var k :| 0 <= k < |a| && a[k] == b[i];
        var l :| 0 <= l < |a| && a[l] == b[j];
        assert k == l;
        Twice(b, i, j);
        OnlyOnce(a, k);
      }
    }
  }

  lemma {:induction false} Twice(b: seq<Record>, i: nat, j: nat)
    requires i < j < |b| && b[i] == b[j]
    ensures multiset(b)[b[i]] >= 2
  {
    assert b == b[..j] + [b[j]] + b[j + 1..];
    assert b[i] in b[..j];
  }

  lemma {:induction false} OnlyOnce(a: seq<Record>, k: nat)
    requires Distinct(a) && k < |a|
    ensures multiset(a)[a[k]] == 1
  {
    assert a == a[..k] + [a[k]] + a[k + 1..];
    assert a[k] !in a[..k] && a[k] !in a[k + 1..];
  }

  /** The first of sorted records precedes every other one. */
  lemma {:induction false} FirstIsLeast(a: seq<Record>, x: Record)
    requires Sorted(a) && Distinct(a) && x in a && x != a[0]
    ensures Less(a[0].path, x.path)
  {
    var k :| 0 <= k < |a| && a[k] == x;
    assert 0 < k && a[0].path != a[k].path;
    LessTotal(a[0].path, x.path);
  }

  lemma {:induction false} FirstsAgree(a: seq<Record>, b: seq<Record>)
    requires Sorted(a) && Sorted(b) && Distinct(a) && Distinct(b) && multiset(a) == multiset(b) && a != []
    ensures b != [] && a[0] == b[0]
  {
    assert a[0] in multiset(b);
    assert b[0] in multiset(a);
    var x, y := a[0], b[0];
    LessTotal(x.path, y.path);
    if x != y {
      FirstIsLeast(a, y);
      FirstIsLeast(b, x);
    }
  }

  lemma {:induction false} TailContents(a: seq<Record>)
    requires a != []
    ensures multiset(a[1..]) == multiset(a) - multiset{a[0]}
  {
    assert a == [a[0]] + a[1..];
  }

  /** With distinct paths, sorted sequences of the same records are equal. */
  lemma {:induction false} SortedIsUnique(a: seq<Record>, b: seq<Record>)
    requires Sorted(a) && Sorted(b) && Distinct(a) && Distinct(b) && multiset(a) == multiset(b)
    ensures a == b
    decreases |a|
  {
    if a == [] {
      assert |multiset(b)| == |b|;
    } else {
      FirstsAgree(a, b);
      TailContents(a);
      TailContents(b);
      SortedIsUnique(a[1..], b[1..]);
      assert a == [a[0]] + a[1..] && b == [b[0]] + b[1..];
    }
  }

  // ----- comparison

  /** The comparison of two inventories. */
  method RecordsEqual(expected: seq<Record>, actual: seq<Record>) returns (same: bool)
    ensures same <==> Canonical(expected) == Canonical(actual)
  {
    var e, a := Canonical(expected), Canonical(actual);
    if |e| != |a| {
      return false;
    }
    for i := 0 to |e|
      invariant e[..i] == a[..i]
    {
      if e[i] != a[i] {
        return false;
      }
      assert e[..i + 1] == e[..i] + [e[i]] && a[..i + 1] == a[..i] + [a[i]];
    }
    assert e[..|e|] == e && a[..|a|] == a;
    return true;
  }

  /** It succeeds exactly when the two inventories have the same records, whatever their order. */
  lemma {:induction false} ComparisonIgnoresOrder(expected: seq<Record>, actual: seq<Record>)
    requires Distinct(expected)
    ensures Canonical(expected) == Canonical(actual) <==> multiset(expected) == multiset(actual)
  {
    CanonicalContents(expected);
    CanonicalContents(actual);
    if multiset(expected) == multiset(actual) {
      CanonicalSorted(expected);
      CanonicalSorted(actual);
      DistinctIsUpToOrder(expected, Canonical(expected));
      DistinctIsUpToOrder(expected, Canonical(actual));
      SortedIsUnique(Canonical(expected), Canonical(actual));
    }
  }

  // ----- the signed baseline

  /** The files field of the state: a nil slice is encoded as null, an empty one as []. */
  datatype Files = Null | List(records: seq<Record>)

  datatype VerifyState = VerifyState(version: int, files: Files, mac: string)

  datatype Stored = Missing | Unreadable | Invalid | Present(state: VerifyState)

  datatype Inventory = Collected(records: seq<Record>) | Failed

  datatype Verdict = Accepted | Rejected

  function RecordsIn(files: Files): seq<Record> {
    if files.Null? then [] else files.records
  }

  /** Sorting copies into a nil slice, so an empty inventory comes out as nil. */
  function CanonicalFiles(files: Files): Files {
    var sorted := Canonical(RecordsIn(files));
    if sorted == [] then Null else List(sorted)
  }

  /** One start of the service: write a baseline if there is none, else check the installation against it.
      `mac` is the authentication code of a version and a files field under the service key. */
  method VerifyInstallation(stored: Stored, inventory: Inventory, mac: (int, Files) -> string)
    returns (verdict: Verdict, after: Stored)
    ensures !stored.Missing? || inventory.Failed? ==> after == stored
    ensures stored.Missing? && inventory.Collected? ==>
              verdict == Accepted && after == Baseline(inventory.records, mac)
    ensures inventory.Failed? ==> verdict == Rejected
    ensures stored.Present? && inventory.Collected? ==>
              (verdict == Accepted <==>
                 && Authentic(stored.state, mac)
                 && Canonical(RecordsIn(stored.state.files)) == Canonical(inventory.records))
    ensures stored.Unreadable? || stored.Invalid? ==> verdict == Rejected
  {
    verdict, after := Rejected, stored;
    match stored
    case Missing =>
      if inventory.Collected? {
        var files := List(inventory.records);
        var state := VerifyState(1, files, mac(1, files));
        after, verdict := Present(state.(files := CanonicalFiles(state.files))), Accepted;
      }
    case Unreadable =>
    case Invalid =>
    case Present(state) =>
      if state.version == 1 && state.mac == mac(state.version, state.files) && inventory.Collected? {
        var same := RecordsEqual(RecordsIn(state.files), inventory.records);
        if same {
          verdict := Accepted;
        }
      }
  }

  ghost predicate Authentic(state: VerifyState, mac: (int, Files) -> string) {
    state.version == 1 && state.mac == mac(1, state.files)
  }

  /** The state written for a first inventory: signed as collected, stored as sorted. */
  ghost function Baseline(records: seq<Record>, mac: (int, Files) -> string): Stored {
    Present(VerifyState(1, CanonicalFiles(List(records)), mac(1, List(records))))
  }

  /** Sorting again changes nothing. */
  lemma {:induction false} CanonicalIsStable(records: seq<Record>)
    requires Sorted(records) && Distinct(records)
    ensures Canonical(records) == records
  {
    CanonicalContents(records);
    CanonicalSorted(records);
    DistinctIsUpToOrder(records, Canonical(records));
    SortedIsUnique(Canonical(records), records);
  }

  /** A baseline is authentic when read back exactly if the inventory was not empty, or the two encodings
      of an empty inventory happen to have the same code. */
  lemma {:induction false} BaselineIsAuthentic(records: seq<Record>, mac: (int, Files) -> string)
    requires Sorted(records) && Distinct(records)
    ensures Authentic(Baseline(records, mac).state, mac) <==> records != [] || mac(1, Null) == mac(1, List([]))
  {
    CanonicalIsStable(records);
  }

  /** Writing a baseline and starting again: an unchanged tree is accepted and a tree with any record
      added, removed or altered is rejected, provided the first inventory was not empty. */
  method BaselineRoundTrip(first: seq<Record>, second: seq<Record>, mac: (int, Files) -> string) returns (verdict: Verdict)
    requires Sorted(first) && Distinct(first)
    ensures verdict == Accepted <==>
              multiset(first) == multiset(second) && (first != [] || mac(1, Null) == mac(1, List([])))
  {
    var v, after := VerifyInstallation(Missing, Collected(first), mac);
    var unused;
    verdict, unused := VerifyInstallation(after, Collected(second), mac);
    BaselineIsAuthentic(first, mac);
    CanonicalIsStable(first);
    ComparisonIgnoresOrder(first, second);
  }

  /** The failing case on one input: the empty installation is rejected at its second start. */
  method EmptyBaselineRejected(mac: (int, Files) -> string) returns (verdict: Verdict)
    requires mac(1, Null) != mac(1, List([]))
    ensures verdict == Rejected
  {
    verdict := BaselineRoundTrip([], [], mac);
  }
}
