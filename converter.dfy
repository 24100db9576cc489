/** The conversion component's state: the queue it renders and the progress
    timers its scheduling pass has started. Every handler replaces the queue
    with the result of one transition. */
module ConverterComponent {
  import opened QueueItems
  import opened QueueTransitions

  /** The random values drawn when a progress timer is started. */
  datatype Draw = Draw(speed: real, shouldFail: bool)

  /** The speed of a run is drawn from [MIN_SPEED, MAX_SPEED). */
  const MIN_SPEED: real := 1.0
  const MAX_SPEED: real := 3.0

  /** A progress timer started for one item id; `cleared` once it has
      cancelled itself. */
  datatype Timer = Timer(itemId: string, speed: real, shouldFail: bool, cleared: bool)

  /** The timers one scheduling pass starts: one per queued item, in queue
      order, each with the draw made for it. */
  function StartedTimers(q: seq<QueueItem>, draws: seq<Draw>): (r: seq<Timer>)
    requires |draws| == |WithStatus(q, Queued)|
    ensures |r| == |draws|
    ensures forall k :: 0 <= k < |r| ==>
              !r[k].cleared && r[k].speed == draws[k].speed && r[k].shouldFail == draws[k].shouldFail
    ensures forall k :: 0 <= k < |r| ==> r[k].itemId == WithStatus(q, Queued)[k].id
    ensures forall k :: 0 <= k < |r| ==>
              exists i :: 0 <= i < |q| && q[i].status == Queued && q[i].id == r[k].itemId
  {
    var queued := WithStatus(q, Queued);
    assert forall k :: 0 <= k < |queued| ==> queued[k] in q && queued[k].status == Queued;
    seq(|draws|, k requires 0 <= k < |draws| =>
      Timer(queued[k].id, draws[k].speed, draws[k].shouldFail, false))
  }

  class Converter {
    var queue: seq<QueueItem>
    var timers: seq<Timer>

    /** Every item has the shape of its status (so progress is within
        0..100), and every timer moves progress forward. */
    ghost predicate Valid()
      reads this
    {
      AllConsistent(queue) && forall t :: t in timers ==> t.speed > 0.0
    }

    constructor ()
      ensures Valid() && queue == [] && timers == []
    {
      queue := [];
      timers := [];
    }

    method AddFilesToQueue(files: seq<FileRef>, ids: seq<string>)
      requires Valid() && |ids| == |files|
      modifies this
      ensures Valid()
      ensures queue == Appended(old(queue), files, ids) && timers == old(timers)
    {
      queue := Appended(queue, files, ids);
    }

    method RemoveItem(id: string)
      requires Valid()
      modifies this
      ensures Valid()
      ensures queue == WithoutId(old(queue), id) && timers == old(timers)
    {
      queue := WithoutId(queue, id);
    }

    method RetryItem(id: string)
      requires Valid()
      modifies this
      ensures Valid()
      ensures queue == Retried(old(queue), id) && timers == old(timers)
    {
      queue := Retried(queue, id);
    }

    method RetryAllFailed()
      requires Valid()
      modifies this
      ensures Valid()
      ensures queue == AllFailedRetried(old(queue)) && timers == old(timers)
    {
      queue := AllFailedRetried(queue);
    }

    method ClearCompleted()
      requires Valid()
      modifies this
      ensures Valid()
      ensures queue == WithoutCompleted(old(queue)) && timers == old(timers)
    {
      queue := WithoutCompleted(queue);
    }

    /** The periodic scheduling pass: start every queued item and a progress
        timer for each of them. */
    method ProcessQueue(draws: seq<Draw>)
      requires Valid()
      requires |draws| == |WithStatus(queue, Queued)|
      requires forall d :: d in draws ==> MIN_SPEED <= d.speed < MAX_SPEED
      modifies this
      ensures Valid()
      ensures queue == Scheduled(old(queue))
      ensures timers == old(timers) + StartedTimers(old(queue), draws)
    {
      timers := timers + StartedTimers(queue, draws);
      queue := Scheduled(queue);
    }

    /** One firing of timer k. A cleared timer no longer fires; a live one
        advances its item and clears itself once the item has settled or has
        been removed. */
    method FireTimer(k: nat)
      requires Valid() && k < |timers|
      modifies this
      ensures Valid()
      ensures old(timers)[k].cleared ==> queue == old(queue) && timers == old(timers)
      ensures var t := old(timers)[k];
              !t.cleared ==>
                queue == Ticked(old(queue), t.itemId, t.speed, t.shouldFail)
                && timers == old(timers)[k := t.(cleared := ClearsTimer(old(queue), t.itemId, t.speed, t.shouldFail))]
    {
      var t := timers[k];
      if !t.cleared {
        var stops := ClearsTimer(queue, t.itemId, t.speed, t.shouldFail);
        queue := Ticked(queue, t.itemId, t.speed, t.shouldFail);
        timers := timers[k := t.(cleared := stops)];
      }
    }
  }
}
