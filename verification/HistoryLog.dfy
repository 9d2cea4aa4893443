/** The rows of one history table for one workflow: appends, age-based pruning across boots, and
    what is left of the history after any interleaving of both. */
module HistoryLog {
  datatype Row<+T> = Row(recordedAt: int, boot: string, payload: T)

  /** Rows by sequence number. */
  type Rows<T> = map<nat, Row<T>>

  function Append<T>(rows: Rows<T>, count: nat, row: Row<T>): Rows<T> {
    rows[count + 1 := row]
  }

  /** Rows of an earlier boot that are old enough go, except the newest one. */
  predicate Prunable<T>(row: Row<T>, k: nat, count: nat, boot: string, before: int) {
    row.boot != boot && row.recordedAt < before && k < count
  }

  function PruneRows<T>(rows: Rows<T>, count: nat, boot: string, before: int): (r: Rows<T>)
    ensures forall k :: k in r <==> k in rows && !Prunable(rows[k], k, count, boot, before)
    ensures forall k :: k in r ==> r[k] == rows[k]
  {
    map k | k in rows && !Prunable(rows[k], k, count, boot, before) :: rows[k]
  }

  /** Sequence numbers run from 1 to the counter, and the newest row is there. */
  ghost predicate HeadKept<T>(rows: Rows<T>, count: nat) {
    (forall k :: k in rows ==> 1 <= k <= count) && (count > 0 ==> count in rows)
  }

  /** No number between 1 and the counter is missing. */
  ghost predicate Gapless<T>(rows: Rows<T>, count: nat) {
    forall k :: k in rows <==> 1 <= k <= count
  }

  /** What is retained is a contiguous stretch that ends at the counter. */
  ghost predicate IsSuffix<T>(rows: Rows<T>, count: nat) {
    HeadKept(rows, count) && forall k :: k in rows && k < count ==> k + 1 in rows
  }

  /** Times do not go back, nothing is later than `clock`, and rows of the current boot come last. */
  ghost predicate Chronological<T>(rows: Rows<T>, boot: string, clock: int) {
    && (forall k :: k in rows ==> rows[k].recordedAt <= clock)
    && (forall j, k :: j in rows && k in rows && j < k ==>
          rows[j].recordedAt <= rows[k].recordedAt && (rows[j].boot == boot ==> rows[k].boot == boot))
  }

  /** An append writes a new number: nothing is overwritten. */
  lemma AppendKeeps<T>(rows: Rows<T>, count: nat, row: Row<T>)
    requires HeadKept(rows, count)
    ensures HeadKept(Append(rows, count, row), count + 1)
    ensures forall k :: k in rows ==> k in Append(rows, count, row) && Append(rows, count, row)[k] == rows[k]
    ensures Gapless(rows, count) ==> Gapless(Append(rows, count, row), count + 1)
    ensures IsSuffix(rows, count) ==> IsSuffix(Append(rows, count, row), count + 1)
  {
  }

  lemma AppendChronological<T>(rows: Rows<T>, count: nat, row: Row<T>, clock: int)
    requires HeadKept(rows, count) && Chronological(rows, row.boot, clock) && clock <= row.recordedAt
    ensures Chronological(Append(rows, count, row), row.boot, row.recordedAt)
  {
  }

  lemma PruneKeeps<T>(rows: Rows<T>, count: nat, boot: string, before: int)
    requires HeadKept(rows, count)
    ensures HeadKept(PruneRows(rows, count, boot, before), count)
  {
  }

  /** A suffix is everything from some number on. */
  lemma {:induction false} SuffixIsStretch<T>(rows: Rows<T>, count: nat, k: nat, l: nat)
    requires IsSuffix(rows, count) && k in rows && k <= l <= count
    ensures l in rows
    decreases l - k
  {
    if k < l {
      SuffixIsStretch(rows, count, k + 1, l);
    }
  }

  /** Below the newest row, a row of an earlier boot comes after none of the current boot and none that
      is younger. */
  ghost predicate OldestFirst<T>(rows: Rows<T>, count: nat, boot: string) {
    forall j, k :: j in rows && k in rows && j < k < count && rows[k].boot != boot ==>
      rows[j].boot != boot && rows[j].recordedAt <= rows[k].recordedAt
  }

  /** Every prune, whatever its cutoff, leaves a stretch that ends at the counter. */
  ghost predicate PrunesToSuffix<T>(rows: Rows<T>, count: nat, boot: string) {
    forall before :: IsSuffix(PruneRows(rows, count, boot, before), count)
  }

  /** Exactly when no prune can open a gap, whatever its cutoff: when old rows come first. */
  lemma PruneSuffixIff<T>(rows: Rows<T>, count: nat, boot: string)
    requires IsSuffix(rows, count)
    ensures PrunesToSuffix(rows, count, boot) <==> OldestFirst(rows, count, boot)
  {
    if OldestFirst(rows, count, boot) {
      forall before ensures IsSuffix(PruneRows(rows, count, boot, before), count) {
        PruneOldest(rows, count, boot, before);
      }
    } else {
      var j, k :| j in rows && k in rows && j < k < count && rows[k].boot != boot
                  && (rows[j].boot == boot || rows[k].recordedAt < rows[j].recordedAt);
      var left := PruneRows(rows, count, boot, rows[k].recordedAt + 1);
      assert j in left && k !in left;
      if IsSuffix(left, count) {
        SuffixIsStretch(left, count, j, k);
        assert false;
      }
    }
  }

  lemma PruneOldest<T>(rows: Rows<T>, count: nat, boot: string, before: int)
    requires IsSuffix(rows, count) && OldestFirst(rows, count, boot)
    ensures IsSuffix(PruneRows(rows, count, boot, before), count)
  {
    var left := PruneRows(rows, count, boot, before);
    forall k | k in left && k < count ensures k + 1 in left {
      assert k in rows && k + 1 in rows;
      assert !Prunable(rows[k], k, count, boot, before);
    }
  }

  /** Pruning a chronological history cuts it off at the front. */
  lemma PruneSuffix<T>(rows: Rows<T>, count: nat, boot: string, before: int, clock: int)
    requires IsSuffix(rows, count) && Chronological(rows, boot, clock)
    ensures IsSuffix(PruneRows(rows, count, boot, before), count)
    ensures Chronological(PruneRows(rows, count, boot, before), boot, clock)
  {
    PruneOldest(rows, count, boot, before);
  }

  /** After a restart under a new boot id, no row is of the current boot. */
  lemma RebootChronological<T>(rows: Rows<T>, boot: string, next: string, clock: int)
    requires Chronological(rows, boot, clock) && forall k :: k in rows ==> rows[k].boot != next
    ensures Chronological(rows, next, clock)
  {
  }
}
