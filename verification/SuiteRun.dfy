/** The whole suite, from the concurrent workloads to the counts recorded by the dashboard. */
module SuiteRun {
  import opened Common
  import opened Text
  import opened Sorting
  import opened Summary
  import opened Batch

  // ------------------------------------------------------------------ running the workloads

  /** How a workload function came back; `captured` is the formatted output of a failed subprocess. */
  datatype Ending =
    | Returned(code: int, error: string)
    | NotAnInteger
    | CalledProcessError(code: int, message: string, captured: string)
    | TimeoutExpired(message: string, captured: string)
    | FileNotFound(message: string)
    | OtherError(typeName: string, message: string)

  datatype Job = Job(name: string, ending: Ending, tenths: nat)

  /** The workload came back with code 0: it returned it, or a subprocess of its own did. */
  predicate EndedWell(job: Job) {
    (job.ending.Returned? || job.ending.CalledProcessError?) && job.ending.code == 0
  }

  /** What a result says about an ending: its code, and the text that tells what went wrong. */
  predicate Explains(r: WorkloadResult, ending: Ending) {
    match ending
    case Returned(code, error) =>
      && r.returncode == code && (error != "" || code == 0 ==> r.error == error)
      && (error == "" && code != 0 ==> r.error == "process exited with status " + PrintInt(code))
    case NotAnInteger => r.returncode == 1 && "TypeError: " <= r.error
    case CalledProcessError(code, message, captured) =>
      r.returncode == code && r.error == "CalledProcessError: " + message + captured
    case TimeoutExpired(message, captured) =>
      r.returncode == 124 && r.error == "TimeoutExpired: " + message + captured
    case FileNotFound(message) => r.returncode == 127 && r.error == "FileNotFoundError: " + message
    case OtherError(typeName, message) => r.returncode == 1 && r.error == typeName + ": " + message
  }

  /** One workload's result: whatever happens inside, there is one that explains it, and a failure has a text. */
  function ResultOf(job: Job): (r: WorkloadResult)
    ensures r.name == job.name && r.tenths == job.tenths && Explains(r, job.ending)
    ensures r.returncode != 0 ==> r.error != ""
    ensures r.returncode == 0 <==> EndedWell(job)
  {
    var (code, error) := match job.ending
      case Returned(code, error) =>
        (code, if code != 0 && error == "" then "process exited with status " + PrintInt(code) else error)
      case NotAnInteger => (1, "TypeError: workload must return an integer exit code")
      case CalledProcessError(code, message, captured) => (code, "CalledProcessError: " + message + captured)
      case TimeoutExpired(message, captured) => (124, "TimeoutExpired: " + message + captured)
      case FileNotFound(message) => (127, "FileNotFoundError: " + message)
      case OtherError(typeName, message) => (1, typeName + ": " + message);
    WorkloadResult(job.name, code, job.tenths, error)
  }

  function Results(jobs: seq<Job>): (r: seq<WorkloadResult>)
    ensures |r| == |jobs| && forall i | 0 <= i < |jobs| :: r[i] == ResultOf(jobs[i])
  {
    if jobs == [] then [] else [ResultOf(jobs[0])] + Results(jobs[1..])
  }

  lemma {:induction false} ResultsAppend(a: seq<Job>, b: seq<Job>)
    ensures Results(a + b) == Results(a) + Results(b)
  {
  }

  lemma {:induction false} ResultsMiddle(before: seq<Job>, job: Job, after: seq<Job>)
    ensures multiset(Results(before + [job] + after)) == multiset(Results(before + after)) + multiset{ResultOf(job)}
  {
    ResultsAppend(before + [job], after);
    ResultsAppend(before, [job]);
    ResultsAppend(before, after);
    assert Results([job]) == [ResultOf(job)];
    hide Results, ResultOf;
  }

  lemma {:induction false} SplitAt<T>(s: seq<T>, x: T) returns (before: seq<T>, after: seq<T>)
    requires x in s
    ensures s == before + [x] + after && multiset(before + after) == multiset(s) - multiset{x}
  {
    var k :| 0 <= k < |s| && s[k] == x;
    before, after := s[..k], s[k + 1..];
    assert s == before + [x] + after;
  }

  lemma {:induction false} SameLength<T>(a: seq<T>, b: seq<T>)
    requires multiset(a) == multiset(b)
    ensures |a| == |b|
  {
    assert |multiset(a)| == |a| && |multiset(b)| == |b|;
  }

  /** Completion in any order gives every workload's result, once. */
  lemma {:induction false} ResultsPermute(jobs: seq<Job>, completed: seq<Job>)
    requires multiset(jobs) == multiset(completed)
    ensures multiset(Results(jobs)) == multiset(Results(completed))
    decreases jobs
  {
    SameLength(jobs, completed);
    if jobs != [] {
      hide Results, ResultOf;
      SameMembers(jobs, completed, jobs[0]);
      var before, after := SplitAt(completed, jobs[0]);
      RestOf(jobs);
      ResultsPermute(jobs[1..], before + after);
      ResultsMoved(jobs[0], jobs[1..], before, after);
    }
  }

  lemma {:induction false} ResultsMoved(job: Job, rest: seq<Job>, before: seq<Job>, after: seq<Job>)
    requires multiset(Results(rest)) == multiset(Results(before + after))
    ensures multiset(Results([job] + rest)) == multiset(Results(before + [job] + after))
  {
    hide Results, ResultOf;
    assert [job] + rest == [] + [job] + rest && [] + rest == rest;
    ResultsMiddle([], job, rest);
    ResultsMiddle(before, job, after);
  }

  lemma {:induction false} RestOf<T>(s: seq<T>)
    requires s != []
    ensures s == [s[0]] + s[1..] && multiset(s[1..]) == multiset(s) - multiset{s[0]}
  {
    assert s == [s[0]] + s[1..];
  }

  /**
    * Starts every workload once the whole preflight has passed, and collects one result of each;
    * `completed` is the order in which they finish, `started` are the submitted workloads.
    */
  method RunConcurrently(jobs: seq<Job>, maxWorkloads: nat, preflight: Job -> bool, completed: seq<Job>)
    returns (results: Option<seq<WorkloadResult>>, started: seq<Job>)
    requires multiset(jobs) == multiset(completed)
    ensures results.Some? <==>
            jobs == [] || (|jobs| <= maxWorkloads && forall i | 0 <= i < |jobs| :: preflight(jobs[i]))
    ensures results.None? ==> started == []
    ensures results.Some? ==> started == jobs && results.value == Results(completed)
    ensures results.Some? ==> multiset(results.value) == multiset(Results(jobs))
  {
    hide Results, ResultOf;
    ResultsPermute(jobs, completed);
    SameLength(jobs, completed);
    started := [];
    if jobs == [] {
      return Some([]), [];
    }
    if |jobs| > maxWorkloads {
      return None, [];
    }
    for i := 0 to |jobs|
      invariant forall j | 0 <= j < i :: preflight(jobs[j])
    {
      if !preflight(jobs[i]) {
        return None, [];
      }
    }
    for i := 0 to |jobs|
      invariant started == jobs[..i]
    {
      started := started + [jobs[i]];
    }
    var collected := Collect(completed);
    results := Some(collected);
  }

  /** One result per finished workload. */
  method Collect(completed: seq<Job>) returns (results: seq<WorkloadResult>)
    ensures results == Results(completed)
  {
    hide ResultOf;
    results := [];
    for i := 0 to |completed|
      invariant results == Results(completed[..i])
    {
      assert completed[..i + 1] == completed[..i] + [completed[i]];
      ResultsAppend(completed[..i], [completed[i]]);
      results := results + [ResultOf(completed[i])];
    }
    assert completed[..|completed|] == completed;
  }

  // ------------------------------------------------------------------ the table, by name

  /** Strings in code point order. */
  predicate StringLe(a: string, b: string) {
    a == "" || (b != "" && (a[0] < b[0] || (a[0] == b[0] && StringLe(a[1..], b[1..]))))
  }

  lemma {:induction false} StringTotal(a: string, b: string)
    ensures StringLe(a, b) || StringLe(b, a)
    ensures StringLe(a, b) && StringLe(b, a) ==> a == b
  {
    if a != "" && b != "" {
      StringTotal(a[1..], b[1..]);
      assert a == [a[0]] + a[1..] && b == [b[0]] + b[1..];
    }
  }

  lemma {:induction false} StringTransitive(a: string, b: string, c: string)
    requires StringLe(a, b) && StringLe(b, c)
    ensures StringLe(a, c)
  {
    if a != "" && a[0] == b[0] == c[0] {
      StringTransitive(a[1..], b[1..], c[1..]);
    }
  }

  /** One is a beginning of the other, or the first different characters decide. */
  lemma {:induction false} StringLeIff(a: string, b: string)
    ensures StringLe(a, b) <==>
            a <= b || exists k :: 0 <= k < |a| && k < |b| && a[..k] == b[..k] && a[k] < b[k]
  {
    if a != "" && b != "" && a[0] == b[0] {
      var c, d := a[1..], b[1..];
      StringLeIff(c, d);
      assert a <= b <==> c <= d by { assert a == [a[0]] + c && b == [b[0]] + d; }
      forall k: nat | k < |c| && k < |d| ensures (c[..k] == d[..k]) == (a[..k + 1] == b[..k + 1]) {
        assert a[..k + 1] == [a[0]] + c[..k] && b[..k + 1] == [b[0]] + d[..k];
        assert a[..k + 1][1..] == c[..k] && b[..k + 1][1..] == d[..k];
      }
      if k :| 0 <= k < |c| && k < |d| && c[..k] == d[..k] && c[k] < d[k] {
        assert a[..k + 1] == b[..k + 1] && a[k + 1] < b[k + 1];
      }
      if k :| 0 <= k < |a| && k < |b| && a[..k] == b[..k] && a[k] < b[k] {
        assert k > 0;
        assert c[..k - 1] == d[..k - 1] && c[k - 1] < d[k - 1];
      }
    } else if a != "" && b != "" && a[0] < b[0] {
      assert a[..0] == b[..0];
    } else if a != "" && b != "" {
      forall k: nat | k < |a| && k < |b| && a[..k] == b[..k] ensures k == 0 {
        if k > 0 {
          SameStart(a, b, k);
        }
      }
    }
  }

  lemma {:induction false} SameStart(a: string, b: string, k: nat)
    requires 0 < k <= |a| && k <= |b| && a[..k] == b[..k]
    ensures a[0] == b[0]
  {
    assert a[..k][0] == b[..k][0];
  }

  predicate ByName(a: WorkloadResult, b: WorkloadResult) {
    StringLe(a.name, b.name)
  }

  lemma {:induction false} ByNameIsOrder()
    ensures TotalOrder(ByName)
  {
    forall x: WorkloadResult, y: WorkloadResult ensures ByName(x, y) || ByName(y, x) {
      StringTotal(x.name, y.name);
    }
    forall x: WorkloadResult, y: WorkloadResult, z: WorkloadResult | ByName(x, y) && ByName(y, z) ensures ByName(x, z) {
      StringTransitive(x.name, y.name, z.name);
    }
  }

  /** No two different results share a name. */
  predicate NamesDiffer(results: seq<WorkloadResult>) {
    forall i, j | 0 <= i < |results| && 0 <= j < |results| && results[i].name == results[j].name ::
      results[i] == results[j]
  }

  /** With one name per result, the printed order does not depend on the order of completion. */
  lemma {:induction false} OrderIndependent(a: seq<WorkloadResult>, b: seq<WorkloadResult>)
    requires multiset(a) == multiset(b) && NamesDiffer(a)
    ensures Sort(a, ByName) == Sort(b, ByName)
  {
    ByNameIsOrder();
    SortSorts(a, ByName);
    SortSorts(b, ByName);
    SortPermutes(a, ByName);
    SortPermutes(b, ByName);
    var s := Sort(a, ByName);
    forall x, y | x in s && y in s && ByName(x, y) && ByName(y, x) ensures x == y {
      SameMembers(s, a, x);
      SameMembers(s, a, y);
      StringTotal(x.name, y.name);
    }
    SortedUnique(s, Sort(b, ByName), ByName);
  }

  predicate Failure(r: WorkloadResult) {
    r.returncode != 0
  }

  /** Exit code and printed table of the suite command; None if nothing was started. */
  method DoAll(jobs: seq<Job>, maxWorkloads: nat, preflight: Job -> bool, completed: seq<Job>)
    returns (code: Option<int>, printed: string)
    requires multiset(jobs) == multiset(completed)
    ensures code.None? <==>
            jobs != [] && (|jobs| > maxWorkloads || exists i :: 0 <= i < |jobs| && !preflight(jobs[i]))
    ensures code.None? ==> printed == ""
    ensures code.Some? ==>
              printed == Table(Sort(Results(completed), ByName))
              && (code == Some(0) || code == Some(1))
              && (code == Some(0) <==> forall i | 0 <= i < |jobs| :: EndedWell(jobs[i]))
  {
    hide ResultOf, Results, Header, Sort, TableRows;
    var results, _ := RunConcurrently(jobs, maxWorkloads, preflight, completed);
    if results.None? {
      return None, "";
    }
    var failures := Filter(results.value, Failure);
    NoFailures(jobs, results.value);
    var table := Sort(results.value, ByName);
    printed := PrintTable(table);
    code := Some(if failures != [] then 1 else 0);
  }

  method PrintTable(table: seq<WorkloadResult>) returns (printed: string)
    ensures printed == Table(table)
  {
    hide PrintRow, Header;
    printed := Header(HEADING);
    for i := 0 to |table|
      invariant printed == Header(HEADING) + TableRows(table[..i])
    {
      assert table[..i + 1] == table[..i] + [table[i]];
      TableRowsAppend(table[..i], table[i]);
      printed := printed + (PrintRow(table[i]) + "\n");
    }
    assert table[..|table|] == table;
  }

  lemma {:induction false} NoFailures(jobs: seq<Job>, results: seq<WorkloadResult>)
    requires multiset(results) == multiset(Results(jobs))
    ensures Filter(results, Failure) == [] <==> forall i | 0 <= i < |jobs| :: EndedWell(jobs[i])
  {
    hide ResultOf, EndedWell, Explains;
    if forall i | 0 <= i < |jobs| :: EndedWell(jobs[i]) {
      forall x | x in results ensures !Failure(x) {
        SameMembers(results, Results(jobs), x);
      }
      FilterNone(results, Failure);
    } else {
      var i :| 0 <= i < |jobs| && !EndedWell(jobs[i]);
      assert Results(jobs)[i] in Results(jobs);
      SameMembers(results, Results(jobs), Results(jobs)[i]);
      FilterMember(results, Failure, Results(jobs)[i]);
    }
  }

  lemma {:induction false} TableRowsAppend(a: seq<WorkloadResult>, r: WorkloadResult)
    ensures TableRows(a + [r]) == TableRows(a) + (PrintRow(r) + "\n")
  {
    hide PrintRow;
    if a == [] {
      assert PrintRow(r) + ("\n" + "") == PrintRow(r) + "\n";
    } else {
      assert (a + [r])[1..] == a[1..] + [r];
      TableRowsAppend(a[1..], r);
      var row, rest, last := PrintRow(a[0]), TableRows(a[1..]), PrintRow(r) + "\n";
      assert row + ("\n" + (rest + last)) == (row + ("\n" + rest)) + last;
    }
  }
}
