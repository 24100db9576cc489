/** One entry of the document-conversion queue and what one firing of its
    progress timer does to it. */
module QueueItems {

  datatype Option<T> = None | Some(value: T)

  /** The browser File an item was created from; only its name and size are
      ever read. */
  datatype FileRef = FileRef(name: string, size: nat)

  datatype Status = Queued | Processing | Completed | Error

  datatype QueueItem = QueueItem(
    id: string,
    file: FileRef,
    status: Status,
    progress: real,
    errorMessage: Option<string>)

  /** The message a simulated failure attaches ("format parse error"). */
  const PARSE_FAILURE: string := "解析格式错误"
  /** A failing run stops at this progress value. */
  const FAIL_AT: real := 60.0
  /** A run completes once progress reaches this value. */
  const DONE: real := 100.0

  /** A freshly admitted item: queued, no progress, no error message. */
  function NewItem(id: string, file: FileRef): (r: QueueItem)
    ensures r.id == id && r.file == file && r.status == Queued && Consistent(r)
  {
    QueueItem(id, file, Queued, 0.0, None)
  }

  /** What the scheduling pass does to one item. */
  function Start(item: QueueItem): (r: QueueItem)
    ensures r.id == item.id && r.file == item.file
    ensures Consistent(item) ==> Consistent(r)
  {
    if item.status == Queued then item.(status := Processing, progress := 0.0) else item
  }

  /** What a retry does to one item, whatever its status. */
  function Reset(item: QueueItem): (r: QueueItem)
    ensures r.id == item.id && r.file == item.file
    ensures r.status == Queued && Consistent(r)
  {
    item.(status := Queued, progress := 0.0, errorMessage := None)
  }

  /** What retrying every failed item does to one item. */
  function RetryIfFailed(item: QueueItem): (r: QueueItem)
    ensures r.status != Error
    ensures Consistent(item) ==> Consistent(r)
  {
    if item.status == Error then Reset(item) else item
  }

  /** The shape every item keeps under every transition: the progress value and
      the error message are determined by the status, and progress stays
      within 0..100. */
  predicate Consistent(item: QueueItem) {
    match item.status
    case Queued => item.progress == 0.0 && item.errorMessage == None
    case Processing => 0.0 <= item.progress < DONE && item.errorMessage == None
    case Completed => item.progress == DONE && item.errorMessage == None
    case Error => item.progress == FAIL_AT && item.errorMessage == Some(PARSE_FAILURE)
  }

  /** One firing of the progress timer on the item it was started for. Only a
      processing item moves; the failure test comes before the completion test. */
  function Advance(item: QueueItem, speed: real, shouldFail: bool): (r: QueueItem)
    ensures r.id == item.id && r.file == item.file
    ensures item.status != Processing ==> r == item
    ensures r.status != item.status ==>
              item.status == Processing && (r.status == Completed || r.status == Error)
    ensures r.status == Processing ==> r.progress == item.progress + speed
    ensures speed > 0.0 && r.status == Processing ==> item.progress < r.progress
    ensures speed > 0.0 && Consistent(item) ==> Consistent(r)
    ensures item.status == Processing && shouldFail && item.progress + speed > FAIL_AT ==>
              r.status == Error
    ensures item.status == Processing && r.status == Completed ==>
              item.progress + speed >= DONE && !(shouldFail && item.progress + speed > FAIL_AT)
    ensures item.status == Processing ==>
              (r.status == Processing <==>
                 !(shouldFail && item.progress + speed > FAIL_AT) && item.progress + speed < DONE)
    ensures item.status == Processing && r.status == Error ==>
              shouldFail && item.progress + speed > FAIL_AT
              && r.progress == FAIL_AT && r.errorMessage == Some(PARSE_FAILURE)
    ensures item.status == Processing && !shouldFail && item.progress + speed >= DONE ==>
              r.status == Completed && r.progress == DONE
  {
    if item.status != Processing then item
    else
      var next := item.progress + speed;
      if shouldFail && next > FAIL_AT then
        item.(status := Error, errorMessage := Some(PARSE_FAILURE), progress := FAIL_AT)
      else if next >= DONE then
        item.(status := Completed, progress := DONE)
      else
        item.(progress := next)
  }

  /** The item after its timer has fired n times with the same speed and
      failure flag. */
  function AdvanceTimes(item: QueueItem, speed: real, shouldFail: bool, n: nat): (r: QueueItem)
    ensures r.id == item.id && r.file == item.file
    ensures r.status == Processing ==> item.status == Processing
    decreases n
  {
    if n == 0 then item else AdvanceTimes(Advance(item, speed, shouldFail), speed, shouldFail, n - 1)
  }

  /** Once an item is not processing, further firings leave it as it is. */
  lemma {:induction false} AdvanceTimesStopped(item: QueueItem, speed: real, shouldFail: bool, n: nat)
    requires item.status != Processing
    ensures AdvanceTimes(item, speed, shouldFail, n) == item
    decreases n
  {
    if n > 0 {
      AdvanceTimesStopped(Advance(item, speed, shouldFail), speed, shouldFail, n - 1);
    }
  }

  /** The (n+1)-th firing acts on the result of the first n. */
  lemma {:induction false} AdvanceTimesLast(item: QueueItem, speed: real, shouldFail: bool, n: nat)
    ensures AdvanceTimes(item, speed, shouldFail, n + 1)
         == Advance(AdvanceTimes(item, speed, shouldFail, n), speed, shouldFail)
    decreases n
  {
    if n > 0 {
      AdvanceTimesLast(Advance(item, speed, shouldFail), speed, shouldFail, n - 1);
    }
  }

  /** Progress stays within 0..100, and the item keeps its consistent shape,
      however often the timer fires. */
  lemma {:induction false} AdvanceTimesConsistent(item: QueueItem, speed: real, shouldFail: bool, n: nat)
    requires speed > 0.0 && Consistent(item)
    ensures Consistent(AdvanceTimes(item, speed, shouldFail, n))
    ensures 0.0 <= AdvanceTimes(item, speed, shouldFail, n).progress <= DONE
    decreases n
  {
    if n > 0 {
      AdvanceTimesConsistent(Advance(item, speed, shouldFail), speed, shouldFail, n - 1);
    }
  }

  /** While an item is still processing, every firing has raised its progress
      by exactly the run's speed. */
  lemma {:induction false} AdvanceTimesProgress(item: QueueItem, speed: real, shouldFail: bool, n: nat)
    requires item.status == Processing
    ensures var r := AdvanceTimes(item, speed, shouldFail, n);
            r.status == Processing ==> r.progress == item.progress + (n as real) * speed
    decreases n
  {
    if n > 0 {
      var next := Advance(item, speed, shouldFail);
      if next.status == Processing {
        AdvanceTimesProgress(next, speed, shouldFail, n - 1);
        assert ((n - 1) as real) * speed + speed == (n as real) * speed;
      } else {
        AdvanceTimesStopped(next, speed, shouldFail, n - 1);
      }
    }
  }

  /** Progress never decreases while the item is processing: a firing that
      leaves it processing has strictly raised its progress. */
  lemma AdvanceTimesMonotone(item: QueueItem, speed: real, shouldFail: bool, n: nat)
    requires speed > 0.0
    ensures var after := AdvanceTimes(item, speed, shouldFail, n + 1);
            var before := AdvanceTimes(item, speed, shouldFail, n);
            after.status == Processing ==>
              before.status == Processing && before.progress < after.progress
  {
    AdvanceTimesLast(item, speed, shouldFail, n);
  }

  /** A run drawn to fail never completes an item that has not passed 60:
      reaching 100 would mean passing 60 first, and that fails the item. */
  lemma {:induction false} FailingRunNeverCompletes(item: QueueItem, speed: real, n: nat)
    requires item.status == Processing && item.progress <= FAIL_AT
    ensures AdvanceTimes(item, speed, true, n).status != Completed
    decreases n
  {
    if n > 0 {
      var next := Advance(item, speed, true);
      if next.status == Processing {
        FailingRunNeverCompletes(next, speed, n - 1);
      } else {
        AdvanceTimesStopped(next, speed, true, n - 1);
      }
    }
  }

  /** A run drawn to fail ends in the error state at progress 60, with the
      parse-failure message, once its speed has carried progress past 60. */
  lemma {:induction false} FailingRunFails(item: QueueItem, speed: real, n: nat)
    requires speed > 0.0 && item.status == Processing && item.progress <= FAIL_AT
    requires (n as real) * speed > FAIL_AT - item.progress
    ensures AdvanceTimes(item, speed, true, n)
         == item.(status := Error, errorMessage := Some(PARSE_FAILURE), progress := FAIL_AT)
    decreases n
  {
    assert n > 0;
    var next := Advance(item, speed, true);
    if item.progress + speed > FAIL_AT {
      AdvanceTimesStopped(next, speed, true, n - 1);
    } else {
      assert ((n - 1) as real) * speed == (n as real) * speed - speed;
      FailingRunFails(next, speed, n - 1);
    }
  }

  /** A run not drawn to fail completes a consistent processing item once its
      speed has carried progress to 100. */
  lemma {:induction false} HealthyRunCompletes(item: QueueItem, speed: real, n: nat)
    requires speed > 0.0 && item.status == Processing && Consistent(item)
    requires (n as real) * speed >= DONE - item.progress
    ensures AdvanceTimes(item, speed, false, n) == item.(status := Completed, progress := DONE)
    decreases n
  {
    assert n > 0;
    var next := Advance(item, speed, false);
    if item.progress + speed >= DONE {
      AdvanceTimesStopped(next, speed, false, n - 1);
    } else {
      assert ((n - 1) as real) * speed == (n as real) * speed - speed;
      HealthyRunCompletes(next, speed, n - 1);
    }
  }

  /** The fate of every item the scheduling pass starts: after n firings with
      n * speed >= 100 it has failed at 60 if its run was drawn to fail, and
      has completed at 100 otherwise. */
  lemma ScheduledItemFinishes(item: QueueItem, speed: real, shouldFail: bool, n: nat)
    requires item.status == Queued && Consistent(item) && speed > 0.0
    requires (n as real) * speed >= DONE
    ensures var r := AdvanceTimes(Start(item), speed, shouldFail, n);
            if shouldFail then r.status == Error && r.progress == FAIL_AT
            else r.status == Completed && r.progress == DONE
  {
    if shouldFail {
      FailingRunFails(Start(item), speed, n);
    } else {
      HealthyRunCompletes(Start(item), speed, n);
    }
  }
}
