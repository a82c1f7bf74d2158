/**
 * Outcome codes of the per-file operations and the end-of-batch tally
 * (`results.count(0)`, `results.count(1)`, `results.count(-1)`). A per-file
 * operation may also return Python's `None`, which no count includes.
 */
module Outcomes {

  datatype Option<+T> = None | Some(value: T)

  const UPDATED: int := 0
  const SKIPPED: int := 1
  const FAILED: int := -1

  /** Which per-file operation a batch runs: `write_metadata` or `clean_metadata`. */
  datatype Mode = Write | Clean

  /** The result of one per-file call: one of the three codes, or no code at all. */
  predicate IsCode(r: Option<int>) {
    r == None || r == Some(UPDATED) || r == Some(SKIPPED) || r == Some(FAILED)
  }

  /** The three numbers logged at the end of a batch. */
  datatype Summary = Summary(updated: nat, skipped: nat, failed: nat)

  /** `results.count(v)` */
  function Count(results: seq<Option<int>>, v: Option<int>): (n: nat)
    ensures n <= |results|
  {
    if results == [] then 0
    else (if results[0] == v then 1 else 0) + Count(results[1..], v)
  }

  function Tally(results: seq<Option<int>>): Summary {
    Summary(Count(results, Some(UPDATED)), Count(results, Some(SKIPPED)), Count(results, Some(FAILED)))
  }

  /** Every result lands in exactly one of the three counts or is a `None`. */
  lemma {:induction false} TallyAccountsForAll(results: seq<Option<int>>)
    requires forall i :: 0 <= i < |results| ==> IsCode(results[i])
    ensures Tally(results).updated + Tally(results).skipped + Tally(results).failed
            + Count(results, None) == |results|
  {
    if results != [] {
      TallyAccountsForAll(results[1..]);
    }
  }

  /** The three counts never exceed the number of files processed, and reach it exactly when no call returned `None`. */
  lemma TallyBounded(results: seq<Option<int>>)
    requires forall i :: 0 <= i < |results| ==> IsCode(results[i])
    ensures Tally(results).updated + Tally(results).skipped + Tally(results).failed <= |results|
    ensures (forall i :: 0 <= i < |results| ==> results[i] != None) ==>
              Tally(results).updated + Tally(results).skipped + Tally(results).failed == |results|
  {
    TallyAccountsForAll(results);
    if forall i :: 0 <= i < |results| ==> results[i] != None {
      CountAbsent(results, None);
    }
  }

  lemma {:induction false} CountAbsent(results: seq<Option<int>>, v: Option<int>)
    requires forall i :: 0 <= i < |results| ==> results[i] != v
    ensures Count(results, v) == 0
  {
    if results != [] {
      CountAbsent(results[1..], v);
    }
  }
}
