/**
 * The notification bus of app.py: one process-wide FIFO of
 * {"type": kind, "message": message} records, fed by add_notification and
 * drained by the loop of every open /stream response.
 */
module Bus {

  import opened JsonValue

  /** One queued record. Both fields are whatever the producer passed: strings from the app, any JSON from /internal/notify. */
  datatype Event = Event(kind: Json, message: Json)

  /** The record for add_notification(message, kind) with string arguments. */
  function Note(message: string, kind: string): Event
  {
    Event(JStr(kind), JStr(message))
  }

  /** The comment frame sent when no event arrives within the wait. */
  const Keepalive: string := ": keepalive\n\n"

  /** The server-sent-events frame carrying one event; dumps stands for json.dumps. */
  function DataFrame(dumps: Event -> string, e: Event): string
  {
    "data: " + dumps(e) + "\n\n"
  }

  /** What n iterations of the stream loop emit when they start on queue q and nothing is added meanwhile. */
  function Frames(dumps: Event -> string, q: seq<Event>, n: nat): seq<string>
  {
    if n == 0 then []
    else if q == [] then [Keepalive] + Frames(dumps, q, n - 1)
    else [DataFrame(dumps, q[0])] + Frames(dumps, q[1..], n - 1)
  }

  /** The queue those n iterations leave behind. */
  function Remaining(q: seq<Event>, n: nat): seq<Event>
  {
    if n < |q| then q[n..] else []
  }

  /**
   * The loop never stops on its own: every iteration yields exactly one frame.
   * The first frames carry the queued events in insertion order, each once;
   * once the queue is empty every frame is a keepalive.
   */
  lemma {:induction false} FramesDeliverInOrder(dumps: Event -> string, q: seq<Event>, n: nat)
    ensures |Frames(dumps, q, n)| == n
    ensures forall i :: 0 <= i < n && i < |q| ==> Frames(dumps, q, n)[i] == DataFrame(dumps, q[i])
    ensures forall i :: |q| <= i < n ==> Frames(dumps, q, n)[i] == Keepalive
  {
    if n > 0 {
      if q == [] {
        FramesDeliverInOrder(dumps, q, n - 1);
      } else {
        FramesDeliverInOrder(dumps, q[1..], n - 1);
        var f := Frames(dumps, q, n);
        forall i | 0 < i < n && i < |q|
          ensures f[i] == DataFrame(dumps, q[i])
        {
          assert f[i] == Frames(dumps, q[1..], n - 1)[i - 1];
        }
        forall i | |q| <= i < n
          ensures f[i] == Keepalive
        {
          assert f[i] == Frames(dumps, q[1..], n - 1)[i - 1];
        }
      }
    }
  }

  /**
   * Producers that add while a stream is running do not disturb what is
   * already ahead of them: for as many iterations as there were queued
   * events, the frames are the same and the latecomers wait at the tail.
   */
  lemma {:induction false} LaterEventsWaitBehind(dumps: Event -> string, q: seq<Event>, later: seq<Event>, n: nat)
    requires n <= |q|
    ensures Frames(dumps, q + later, n) == Frames(dumps, q, n)
    ensures Remaining(q + later, n) == Remaining(q, n) + later
  {
    if n > 0 {
      assert (q + later)[1..] == q[1..] + later;
      LaterEventsWaitBehind(dumps, q[1..], later, n - 1);
    }
    if n == |q| {
      assert (q + later)[n..] == later;
    } else {
      assert (q + later)[n..] == q[n..] + later;
    }
  }

  /** No event is ever dropped: the event added last is sent once the ones before it are. */
  lemma NoEventDropped(dumps: Event -> string, q: seq<Event>, e: Event)
    ensures |Frames(dumps, q + [e], |q| + 1)| == |q| + 1
    ensures Frames(dumps, q + [e], |q| + 1)[|q|] == DataFrame(dumps, e)
    ensures Remaining(q + [e], |q| + 1) == []
  {
    FramesDeliverInOrder(dumps, q + [e], |q| + 1);
  }

  /** notification_queue: created with no maxsize, so put_nowait never raises queue.Full. */
  class NotificationQueue {

    var items: seq<Event>

    constructor ()
      ensures items == []
    {
      items := [];
    }

    /** add_notification(message, msg_type): the record goes to the tail; nothing fails. */
    method Add(message: Json, kind: Json)
      modifies this
      ensures items == old(items) + [Event(kind, message)]
    {
      items := items + [Event(kind, message)];
    }

    /**
     * One iteration of event_stream: get(timeout=60) either removes the head
     * and yields its data frame, or times out on the empty queue and yields a
     * keepalive, leaving the queue as it was.
     */
    method StreamStep(dumps: Event -> string) returns (frame: string)
      modifies this
      ensures old(items) == [] ==> frame == Keepalive && items == old(items)
      ensures old(items) != [] ==> frame == DataFrame(dumps, old(items)[0]) && items == old(items)[1..]
    {
      if items == [] {
        frame := Keepalive;
      } else {
        frame := DataFrame(dumps, items[0]);
        items := items[1..];
      }
    }

    /** n iterations of the `while True` loop of event_stream, with no producer in between. */
    method Stream(dumps: Event -> string, n: nat) returns (frames: seq<string>)
      modifies this
      ensures frames == Frames(dumps, old(items), n)
      ensures items == Remaining(old(items), n)
    {
      frames := [];
      var i := 0;
      while i < n
        invariant 0 <= i <= n
        invariant items == Remaining(old(items), i)
        invariant frames + Frames(dumps, items, n - i) == Frames(dumps, old(items), n)
      {
        ghost var before := items;
        var f := StreamStep(dumps);
        assert Frames(dumps, before, n - i) == [f] + Frames(dumps, items, n - i - 1);
        frames := frames + [f];
        i := i + 1;
      }
    }
  }
}
