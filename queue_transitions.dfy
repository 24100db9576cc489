/** The transitions of the conversion queue. Each one takes the current list
    of items and returns the list that replaces it; none of them changes an
    item's id or file. */
module QueueTransitions {
  import opened QueueItems
  import opened ArrayOps

  /** Every item of the queue has the shape of its status. */
  predicate AllConsistent(q: seq<QueueItem>) {
    forall x :: x in q ==> Consistent(x)
  }

  /** The items in the given status, in queue order (what the status panel counts). */
  function WithStatus(q: seq<QueueItem>, s: Status): (r: seq<QueueItem>)
    ensures forall x :: x in r ==> x.status == s
  {
    Filter(q, (x: QueueItem) => x.status == s)
  }

  /** The items carrying the given id, in queue order. */
  function WithId(q: seq<QueueItem>, id: string): (r: seq<QueueItem>)
    ensures forall x :: x in r <==> x in q && x.id == id
  {
    Filter(q, (x: QueueItem) => x.id == id)
  }

  // ---------------------------------------------------------------- admission

  /** Admission of a batch of files: one queued item per file, appended in file
      order after everything already in the queue. The ids are the random
      strings drawn for the files, one per file. */
  function Appended(q: seq<QueueItem>, files: seq<FileRef>, ids: seq<string>): (r: seq<QueueItem>)
    requires |ids| == |files|
    ensures |r| == |q| + |files|
    ensures r[..|q|] == q
    ensures forall i :: 0 <= i < |files| ==>
              r[|q| + i] == QueueItem(ids[i], files[i], Queued, 0.0, None)
    ensures AllConsistent(q) ==> AllConsistent(r)
  {
    q + seq(|files|, i requires 0 <= i < |files| => NewItem(ids[i], files[i]))
  }

  /** Admission adds exactly one queued item per file and no item in any other
      status. */
  lemma AppendedCounts(q: seq<QueueItem>, files: seq<FileRef>, ids: seq<string>, s: Status)
    requires |ids| == |files|
    ensures |WithStatus(Appended(q, files, ids), s)|
         == |WithStatus(q, s)| + (if s == Queued then |files| else 0)
  {
    var added := Appended(q, files, ids)[|q|..];
    assert Appended(q, files, ids) == q + added;
    FilterConcat(q, added, (x: QueueItem) => x.status == s);
    if s == Queued {
      FilterKeepsAll(added, (x: QueueItem) => x.status == s);
    } else {
      FilterKeepsNone(added, (x: QueueItem) => x.status == s);
    }
  }

  // ------------------------------------------------------------------ removal

  /** Removal of every item carrying the given id. */
  function WithoutId(q: seq<QueueItem>, id: string): (r: seq<QueueItem>)
    ensures forall x :: x in r <==> x in q && x.id != id
    ensures AllConsistent(q) ==> AllConsistent(r)
  {
    Filter(q, (x: QueueItem) => x.id != id)
  }

  /** Removal drops exactly the items carrying the id, however many there are. */
  lemma WithoutIdLength(q: seq<QueueItem>, id: string)
    ensures |WithoutId(q, id)| == |q| - |WithId(q, id)|
  {
    FilterPartition(q, (x: QueueItem) => x.id != id, (x: QueueItem) => x.id == id);
  }

  /** Removal keeps the other items in their original relative order: each
      item is dropped exactly when it carries the id, and stays between what
      survives before it and what survives after it. */
  lemma WithoutIdKeepsOrder(q: seq<QueueItem>, i: nat, id: string)
    requires i < |q|
    ensures WithoutId(q, id)
         == WithoutId(q[..i], id) + (if q[i].id != id then [q[i]] else []) + WithoutId(q[i + 1..], id)
  {
    FilterAt(q, i, (x: QueueItem) => x.id != id);
  }

  /** Removing an id nobody carries changes nothing. */
  lemma WithoutAbsentId(q: seq<QueueItem>, id: string)
    requires forall x :: x in q ==> x.id != id
    ensures WithoutId(q, id) == q
  {
    FilterKeepsAll(q, (x: QueueItem) => x.id != id);
  }

  // ------------------------------------------------------------------ retries

  /** Retry of every item carrying the given id, whatever its status. */
  function Retried(q: seq<QueueItem>, id: string): (r: seq<QueueItem>)
    ensures |r| == |q|
    ensures forall i :: 0 <= i < |q| && q[i].id == id ==>
              r[i].status == Queued && r[i].progress == 0.0 && r[i].errorMessage == None
              && r[i].id == id && r[i].file == q[i].file
    ensures forall i :: 0 <= i < |q| && q[i].id != id ==> r[i] == q[i]
    ensures AllConsistent(q) ==> AllConsistent(r)
  {
    Map(q, (x: QueueItem) => if x.id == id then Reset(x) else x)
  }

  /** Retrying the same id twice is retrying it once. */
  lemma RetriedIdempotent(q: seq<QueueItem>, id: string)
    ensures Retried(Retried(q, id), id) == Retried(q, id)
  {
  }

  /** Retry of every failed item. */
  function AllFailedRetried(q: seq<QueueItem>): (r: seq<QueueItem>)
    ensures |r| == |q|
    ensures forall x :: x in r ==> x.status != Error
    ensures forall i :: 0 <= i < |q| && q[i].status != Error ==> r[i] == q[i]
    ensures forall i :: 0 <= i < |q| && q[i].status == Error ==>
              r[i].status == Queued && r[i].progress == 0.0 && r[i].errorMessage == None
              && r[i].id == q[i].id && r[i].file == q[i].file
    ensures AllConsistent(q) ==> AllConsistent(r)
  {
    Map(q, RetryIfFailed)
  }

  /** Retrying all failed items twice is retrying them once. */
  lemma AllFailedRetriedIdempotent(q: seq<QueueItem>)
    ensures AllFailedRetried(AllFailedRetried(q)) == AllFailedRetried(q)
  {
  }

  /** The failed items all become queued; no other status gains or loses an item. */
  lemma AllFailedRetriedCounts(q: seq<QueueItem>)
    ensures |WithStatus(AllFailedRetried(q), Queued)| == |WithStatus(q, Queued)| + |WithStatus(q, Error)|
    ensures WithStatus(AllFailedRetried(q), Error) == []
  {
    Relabelled(q, RetryIfFailed, Error, Queued);
  }

  // ------------------------------------------------------------------ cleanup

  /** Removal of every completed item. */
  function WithoutCompleted(q: seq<QueueItem>): (r: seq<QueueItem>)
    ensures forall x :: x in r <==> x in q && x.status != Completed
    ensures AllConsistent(q) ==> AllConsistent(r)
  {
    Filter(q, (x: QueueItem) => x.status != Completed)
  }

  /** Clearing drops exactly the completed items. */
  lemma WithoutCompletedLength(q: seq<QueueItem>)
    ensures |WithoutCompleted(q)| == |q| - |WithStatus(q, Completed)|
  {
    FilterPartition(q, (x: QueueItem) => x.status != Completed, (x: QueueItem) => x.status == Completed);
  }

  /** Clearing keeps every other item in its original relative order. */
  lemma WithoutCompletedKeepsOrder(q: seq<QueueItem>, i: nat)
    requires i < |q|
    ensures WithoutCompleted(q)
         == WithoutCompleted(q[..i]) + (if q[i].status != Completed then [q[i]] else [])
            + WithoutCompleted(q[i + 1..])
  {
    FilterAt(q, i, (x: QueueItem) => x.status != Completed);
  }

  /** Clearing twice is clearing once. */
  lemma WithoutCompletedIdempotent(q: seq<QueueItem>)
    ensures WithoutCompleted(WithoutCompleted(q)) == WithoutCompleted(q)
  {
    FilterIdempotent(q, (x: QueueItem) => x.status != Completed);
  }

  // --------------------------------------------------------------- scheduling

  /** The scheduling pass: every queued item starts processing from 0. */
  function Scheduled(q: seq<QueueItem>): (r: seq<QueueItem>)
    ensures |r| == |q|
    ensures forall x :: x in r ==> x.status != Queued
    ensures forall i :: 0 <= i < |q| && q[i].status == Queued ==>
              r[i] == q[i].(status := Processing, progress := 0.0)
    ensures forall i :: 0 <= i < |q| && q[i].status != Queued ==> r[i] == q[i]
    ensures AllConsistent(q) ==> AllConsistent(r)
  {
    Map(q, Start)
  }

  /** There is no limit on how many items process at once: the pass moves every
      queued item to processing, and no other status gains or loses an item. */
  lemma ScheduledCounts(q: seq<QueueItem>)
    ensures |WithStatus(Scheduled(q), Processing)| == |WithStatus(q, Processing)| + |WithStatus(q, Queued)|
    ensures WithStatus(Scheduled(q), Queued) == []
  {
    Relabelled(q, Start, Queued, Processing);
  }

  /** A pass with nothing queued changes nothing, so a second pass right after
      the first is a no-op. */
  lemma ScheduledIdempotent(q: seq<QueueItem>)
    ensures Scheduled(Scheduled(q)) == Scheduled(q)
  {
  }

  /** Counting helper: a map that moves every item in status `from` to status
      `to` and leaves every other item alone. */
  lemma {:induction false} Relabelled(q: seq<QueueItem>, f: QueueItem -> QueueItem, from: Status, to: Status)
    requires from != to
    requires forall x: QueueItem :: x.status == from ==> f(x).status == to
    requires forall x: QueueItem :: x.status != from ==> f(x) == x
    ensures |WithStatus(Map(q, f), to)| == |WithStatus(q, to)| + |WithStatus(q, from)|
    ensures WithStatus(Map(q, f), from) == []
  {
    if q != [] {
      Relabelled(q[1..], f, from, to);
      assert Map(q, f) == [f(q[0])] + Map(q[1..], f);
    } else {
      assert Map(q, f) == [];
    }
  }

  // ----------------------------------------------------------- progress ticks

  /** One firing of the progress timer started for `id`: every item carrying
      the id advances; all other items stay exactly as they were. */
  function Ticked(q: seq<QueueItem>, id: string, speed: real, shouldFail: bool): (r: seq<QueueItem>)
    ensures |r| == |q|
    ensures forall i :: 0 <= i < |q| && q[i].id == id ==> r[i] == Advance(q[i], speed, shouldFail)
    ensures forall i :: 0 <= i < |q| && (q[i].id != id || q[i].status != Processing) ==> r[i] == q[i]
    ensures speed > 0.0 && AllConsistent(q) ==> AllConsistent(r)
  {
    Map(q, (x: QueueItem) => if x.id == id then Advance(x, speed, shouldFail) else x)
  }

  /** Whether the firing clears its timer, as written: some item carrying the
      id was no longer processing, or failed, or completed. That is, some item
      carrying the id is outside processing once this firing has advanced it. */
  predicate StopsTimer(q: seq<QueueItem>, id: string, speed: real, shouldFail: bool)
    ensures StopsTimer(q, id, speed, shouldFail) <==>
            exists i :: 0 <= i < |q| && q[i].id == id && Advance(q[i], speed, shouldFail).status != Processing
  {
    exists i :: 0 <= i < |q| && q[i].id == id &&
      (q[i].status != Processing
       || (shouldFail && q[i].progress + speed > FAIL_AT)
       || q[i].progress + speed >= DONE)
  }

  /** The timer is cleared exactly when the firing leaves some item carrying
      its id outside the processing state. */
  lemma StopsTimerIffSettled(q: seq<QueueItem>, id: string, speed: real, shouldFail: bool)
    ensures StopsTimer(q, id, speed, shouldFail) <==>
            exists i :: 0 <= i < |q| && q[i].id == id &&
              Ticked(q, id, speed, shouldFail)[i].status != Processing
  {
  }


  /** The queue after the timer started for `id` has fired n times. */
  function TickedTimes(q: seq<QueueItem>, id: string, speed: real, shouldFail: bool, n: nat): (r: seq<QueueItem>)
    ensures |r| == |q|
    ensures forall i :: 0 <= i < |q| && q[i].id != id ==> r[i] == q[i]
    decreases n
  {
    if n == 0 then q else TickedTimes(Ticked(q, id, speed, shouldFail), id, speed, shouldFail, n - 1)
  }

  /** Repeated firings act on each item carrying the id exactly as the run of
      that item alone does, and on no other item; so every fact proved about
      AdvanceTimes holds for the item inside the queue. */
  lemma {:induction false} TickedTimesAt(q: seq<QueueItem>, id: string, speed: real, shouldFail: bool, n: nat, i: nat)
    requires i < |q|
    ensures |TickedTimes(q, id, speed, shouldFail, n)| == |q|
    ensures TickedTimes(q, id, speed, shouldFail, n)[i]
         == if q[i].id == id then AdvanceTimes(q[i], speed, shouldFail, n) else q[i]
    decreases n
  {
    if n > 0 {
      TickedTimesAt(Ticked(q, id, speed, shouldFail), id, speed, shouldFail, n - 1, i);
    }
  }

  /** As written, a timer whose item has been removed is never cleared: no item
      carries its id, so each of its firings changes nothing and does not stop
      it, however many times it fires. */
  lemma RemovedItemTimerNeverStops(q: seq<QueueItem>, id: string, speed: real, shouldFail: bool, n: nat)
    ensures TickedTimes(WithoutId(q, id), id, speed, shouldFail, n) == WithoutId(q, id)
    ensures !StopsTimer(TickedTimes(WithoutId(q, id), id, speed, shouldFail, n), id, speed, shouldFail)
  {
  }

  /** The clearing rule the firing evidently intends: stop when an item
      carrying the id has settled, or when no item carries the id any more
      (it was removed). */
  predicate ClearsTimer(q: seq<QueueItem>, id: string, speed: real, shouldFail: bool) {
    StopsTimer(q, id, speed, shouldFail) || forall x :: x in q ==> x.id != id
  }

  /** The intended rule clears the timer of a removed item at its next firing,
      and agrees with the rule as written whenever some item still carries the id. */
  lemma RemovedItemTimerClears(q: seq<QueueItem>, id: string, speed: real, shouldFail: bool)
    ensures ClearsTimer(WithoutId(q, id), id, speed, shouldFail)
    ensures (exists x :: x in q && x.id == id) ==>
              (ClearsTimer(q, id, speed, shouldFail) <==> StopsTimer(q, id, speed, shouldFail))
  {
  }
}
