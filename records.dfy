/**
 * Records as the record API returns them, and the status counting that both
 * tallies of the widget share.
 */
module Records {
  import opened Wrappers

  /**
   * A record: field code to the field's `value`. A code missing from the map
   * is a field object that is absent (`record[code]` is undefined); `None` is a
   * field whose `value` is null or undefined.
   */
  type Record = map<string, Option<string>>

  /**
   * The status a tally looks at: `None` when the field is missing or its value
   * is missing or empty (`!field || !field.value`), which skips the record.
   */
  function StatusOf(rec: Record, code: string): Option<string> {
    if code in rec && rec[code].Some? && rec[code].value != "" then rec[code] else None
  }

  /** The record has a status and it belongs to `vocab`. */
  predicate HasStatusIn(rec: Record, code: string, vocab: set<string>) {
    match StatusOf(rec, code)
    case Some(s) => s in vocab
    case None => false
  }

  /** How many records carry a status from `vocab`, counted front to back. */
  function Count(records: seq<Record>, code: string, vocab: set<string>): (n: nat)
    ensures n <= |records|
  {
    if |records| == 0 then 0
    else
      var last := records[|records| - 1];
      Count(records[..|records| - 1], code, vocab) + (if HasStatusIn(last, code, vocab) then 1 else 0)
  }

  /** The positions of the records that carry a status from `vocab`, among the first `n`. */
  ghost function Matching(records: seq<Record>, code: string, vocab: set<string>, n: nat): set<nat>
    requires n <= |records|
  {
    set i: nat | i < n && HasStatusIn(records[i], code, vocab)
  }

  /** Count is the number of records whose status is in the vocabulary. */
  lemma {:induction false} CountIsMatchingRecords(records: seq<Record>, code: string, vocab: set<string>)
    ensures Count(records, code, vocab) == |Matching(records, code, vocab, |records|)|
  {
    if |records| > 0 {
      var n := |records| - 1;
      CountIsMatchingRecords(records[..n], code, vocab);
      MatchingFront(records, code, vocab, n);
      MatchingGrow(records, code, vocab, n);
    }
  }

  /** The matches among the first `n` records depend only on those records. */
  lemma MatchingFront(records: seq<Record>, code: string, vocab: set<string>, n: nat)
    requires n <= |records|
    ensures Matching(records[..n], code, vocab, n) == Matching(records, code, vocab, n)
  {
    forall i: nat | i < n ensures records[..n][i] == records[i] { }
  }

  /** Looking at one more record adds its position exactly when it matches. */
  lemma MatchingGrow(records: seq<Record>, code: string, vocab: set<string>, n: nat)
    requires n < |records|
    ensures Matching(records, code, vocab, n + 1) ==
            Matching(records, code, vocab, n) + (if HasStatusIn(records[n], code, vocab) then {n} else {})
    ensures n !in Matching(records, code, vocab, n)
  {
  }

  /** Counting over two disjoint vocabularies adds up to counting over their union. */
  lemma {:induction false} CountDisjointUnion(records: seq<Record>, code: string, a: set<string>, b: set<string>)
    requires a !! b
    ensures Count(records, code, a) + Count(records, code, b) == Count(records, code, a + b)
  {
    if |records| > 0 {
      CountDisjointUnion(records[..|records| - 1], code, a, b);
    }
  }

  /** Two disjoint classes together never count more records than there are. */
  lemma CountDisjointBound(records: seq<Record>, code: string, a: set<string>, b: set<string>)
    requires a !! b
    ensures Count(records, code, a) + Count(records, code, b) <= |records|
  {
    CountDisjointUnion(records, code, a, b);
  }

  /** A record whose status field is absent, null or empty adds nothing to any count. */
  lemma {:induction false} CountSkipsMissingStatus(records: seq<Record>, rec: Record, code: string, vocab: set<string>)
    requires code !in rec || rec[code] == None || rec[code] == Some("")
    ensures Count(records + [rec], code, vocab) == Count(records, code, vocab)
  {
    assert (records + [rec])[..|records|] == records;
  }

  /** Counting one more record adds one exactly when its status is in the vocabulary. */
  lemma CountStep(records: seq<Record>, i: nat, code: string, vocab: set<string>)
    requires i < |records|
    ensures Count(records[..i + 1], code, vocab) ==
            Count(records[..i], code, vocab) + (if HasStatusIn(records[i], code, vocab) then 1 else 0)
  {
    assert records[..i + 1][..i] == records[..i];
  }
}
