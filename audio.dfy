/**
 * The text-to-speech queue of blindaid/core/audio.py (and its copy in
 * facerecognizer.py), as a sequential FIFO.
 *
 * `speak` puts a message on a queue of capacity 10 without blocking and drops
 * it when the queue is full. A worker takes messages off the head one at a
 * time and plays them. `None` is the stop sentinel. A read that times out on
 * an empty queue just loops, and a failed playback is logged and skipped.
 * Here the worker runs in explicit steps, one queue read each, and the
 * outcome of each playback is an input.
 */
module Audio {
  import opened Common

  /** The queue's `maxsize`. */
  const Capacity: nat := 10

  /** A queued item: a text to speak, or the `None` poison pill. */
  datatype Message = Utterance(text: string) | Sentinel

  /** What the worker does to a queue: the texts it played, whether it met the
      sentinel, and what is left on the queue. */
  datatype WorkerRun = WorkerRun(played: seq<string>, stopped: bool, rest: seq<Message>)

  /** The worker draining `items` from the head. `ok[i]` says whether the
      playback of the i-th item succeeds. A failed playback is skipped and the
      worker goes on. The sentinel stops it, and everything after the
      sentinel stays on the queue. */
  function Consume(items: seq<Message>, ok: seq<bool>): WorkerRun
    requires |ok| >= |items|
    decreases |items|
  {
    if items == [] then WorkerRun([], false, [])
    else match items[0]
      case Sentinel => WorkerRun([], true, items[1..])
      case Utterance(t) =>
        var r := Consume(items[1..], ok[1..]);
        WorkerRun(if ok[0] then [t] + r.played else r.played, r.stopped, r.rest)
  }

  /** A run whose first texts `acc` were already played. */
  function Resume(acc: seq<string>, r: WorkerRun): WorkerRun
  {
    WorkerRun(acc + r.played, r.stopped, r.rest)
  }

  /** One step of `Consume`: the head item either stops the run or adds its
      text (when it plays) to what was already played. */
  lemma ConsumeHead(acc: seq<string>, items: seq<Message>, ok: seq<bool>)
    requires |ok| >= |items| && items != []
    ensures items[0].Sentinel? ==> Resume(acc, Consume(items, ok)) == WorkerRun(acc, true, items[1..])
    ensures items[0].Utterance? ==>
      Resume(acc, Consume(items, ok))
      == Resume(acc + (if ok[0] then [items[0].text] else []), Consume(items[1..], ok[1..]))
  {
  }

  /** The texts queued before the first sentinel, in queue order. */
  function TextsBeforeSentinel(items: seq<Message>): seq<string>
    decreases |items|
  {
    if items == [] then []
    else match items[0]
      case Sentinel => []
      case Utterance(t) => [t] + TextsBeforeSentinel(items[1..])
  }

  /** Whether `sub` can be obtained from `s` by deleting elements. */
  predicate IsSubsequence(sub: seq<string>, s: seq<string>)
    decreases |s|
  {
    if sub == [] then true
    else if s == [] then false
    else if sub[0] == s[0] then IsSubsequence(sub[1..], s[1..])
    else IsSubsequence(sub, s[1..])
  }

  /** The worker keeps FIFO order and plays nothing queued behind the sentinel:
      what it plays is a subsequence of the texts ahead of the first sentinel.
      When every playback succeeds it plays exactly those texts. It stops iff a
      sentinel was queued, and then the queue keeps exactly what followed the
      sentinel. */
  lemma ConsumeIsFifoUntilSentinel(items: seq<Message>, ok: seq<bool>)
    requires |ok| >= |items|
    ensures IsSubsequence(Consume(items, ok).played, TextsBeforeSentinel(items))
    ensures (forall i :: 0 <= i < |items| ==> ok[i]) ==> Consume(items, ok).played == TextsBeforeSentinel(items)
    ensures Consume(items, ok).stopped <==> Sentinel in items
    ensures Consume(items, ok).stopped ==>
      exists k :: 0 <= k < |items| && items[k] == Sentinel && Sentinel !in items[..k] && Consume(items, ok).rest == items[k + 1..]
    ensures !Consume(items, ok).stopped ==> Consume(items, ok).rest == []
  {
    ConsumePlaysInOrder(items, ok);
    ConsumeStopsAtSentinel(items, ok);
  }

  /** What the worker plays is a subsequence of the texts ahead of the first
      sentinel, and all of them when every playback succeeds. */
  lemma {:induction false} ConsumePlaysInOrder(items: seq<Message>, ok: seq<bool>)
    requires |ok| >= |items|
    ensures IsSubsequence(Consume(items, ok).played, TextsBeforeSentinel(items))
    ensures (forall i :: 0 <= i < |items| ==> ok[i]) ==> Consume(items, ok).played == TextsBeforeSentinel(items)
    decreases |items|
  {
    if items != [] && items[0].Utterance? {
      ConsumePlaysInOrder(items[1..], ok[1..]);
      var r := Consume(items[1..], ok[1..]);
      var t := items[0].text;
      var tail := TextsBeforeSentinel(items[1..]);
      assert TextsBeforeSentinel(items) == [t] + tail;
      if ok[0] {
        assert ([t] + r.played)[1..] == r.played;
      } else {
        SubsequenceOfLonger(r.played, tail, t);
      }
      if (forall i :: 0 <= i < |items| ==> ok[i]) {
        assert forall i :: 0 <= i < |items[1..]| ==> ok[1..][i] == ok[i + 1];
      }
    }
  }

  /** The worker stops iff a sentinel was queued, and then the queue keeps
      exactly what followed the first sentinel; otherwise it empties it. */
  lemma {:induction false} ConsumeStopsAtSentinel(items: seq<Message>, ok: seq<bool>)
    requires |ok| >= |items|
    ensures Consume(items, ok).stopped <==> Sentinel in items
    ensures Consume(items, ok).stopped ==>
      exists k :: 0 <= k < |items| && items[k] == Sentinel && Sentinel !in items[..k] && Consume(items, ok).rest == items[k + 1..]
    ensures !Consume(items, ok).stopped ==> Consume(items, ok).rest == []
    decreases |items|
  {
    if items != [] {
      assert items == [items[0]] + items[1..];
      if items[0].Sentinel? {
        assert Sentinel !in items[..0];
      } else {
        ConsumeStopsAtSentinel(items[1..], ok[1..]);
        var r := Consume(items[1..], ok[1..]);
        if r.stopped {
          var k :| 0 <= k < |items[1..]| && items[1..][k] == Sentinel && Sentinel !in items[1..][..k] && r.rest == items[1..][k + 1..];
          assert items[k + 1] == Sentinel;
          assert items[..k + 1] == [items[0]] + items[1..][..k];
          assert r.rest == items[k + 2..];
        }
      }
    }
  }

  lemma {:induction false} SubsequenceOfLonger(sub: seq<string>, s: seq<string>, x: string)
    requires IsSubsequence(sub, s)
    ensures IsSubsequence(sub, [x] + s)
    decreases |s|, 1
  {
    if sub != [] && sub[0] == x {
      // `sub` is also a subsequence of `s` after dropping `x`.
      assert ([x] + s)[1..] == s;
      SubsequenceDropHead(sub, s);
    } else {
      assert ([x] + s)[1..] == s;
    }
  }

  lemma {:induction false} SubsequenceDropHead(sub: seq<string>, s: seq<string>)
    requires sub != [] && IsSubsequence(sub, s)
    ensures IsSubsequence(sub[1..], s)
    decreases |s|, 0
  {
    if sub[0] == s[0] {
      SubsequenceOfLonger(sub[1..], s[1..], s[0]);
      assert [s[0]] + s[1..] == s;
    } else {
      SubsequenceDropHead(sub, s[1..]);
      SubsequenceOfLonger(sub[1..], s[1..], s[0]);
      assert [s[0]] + s[1..] == s;
    }
  }

  /** The `speak` calls of one caller, in order, against a queue: the queue
      each put leaves behind. Nothing is consumed in between. */
  function OfferAll(items: seq<Message>, texts: seq<string>): seq<Message>
    decreases |texts|
  {
    if texts == [] then items
    else
      var before := OfferAll(items, texts[..|texts| - 1]);
      if |before| < Capacity then before + [Utterance(texts[|texts| - 1])] else before
  }

  /** Offering two lists of messages one after the other is offering them
      together. */
  lemma {:induction false} OfferAllAppend(q: seq<Message>, a: seq<string>, b: seq<string>)
    ensures OfferAll(q, a + b) == OfferAll(OfferAll(q, a), b)
    decreases |b|
  {
    if b == [] {
      assert a + b == a;
    } else {
      var init := b[..|b| - 1];
      OfferAllAppend(q, a, init);
      assert (a + b)[..|a + b| - 1] == a + init;
    }
  }

  /** A burst of `speak` calls keeps the queue within capacity. It takes the
      texts in order until the queue is full and drops every later one. */
  lemma {:induction false} OfferAllFillsThenDrops(items: seq<Message>, texts: seq<string>)
    requires |items| <= Capacity
    ensures var taken := Min(|texts|, Capacity - |items|);
      OfferAll(items, texts) == items + seq(taken, i requires 0 <= i < taken => Utterance(texts[i]))
    decreases |texts|
  {
    if texts != [] {
      var init := texts[..|texts| - 1];
      OfferAllFillsThenDrops(items, init);
      var before := OfferAll(items, init);
      var taken := Min(|texts|, Capacity - |items|);
      var takenInit := Min(|init|, Capacity - |items|);
      if |before| < Capacity {
        assert taken == takenInit + 1;
        assert forall i :: 0 <= i < takenInit ==> init[i] == texts[i];
      } else {
        assert taken == takenInit;
        assert forall i :: 0 <= i < takenInit ==> init[i] == texts[i];
      }
    }
  }

  /** The speech player: its queue, the texts played so far, and whether the
      worker thread is still reading the queue. */
  class AudioPlayer {
    var queue: seq<Message>
    var played: seq<string>
    var workerAlive: bool

    ghost predicate Valid()
      reads this
    {
      |queue| <= Capacity
    }

    /** A new player with an empty queue. `engineAvailable` is false when the
        worker's `import pyttsx3` fails: the worker then ends at once, and
        nothing queued is ever played. */
    constructor(engineAvailable: bool)
      ensures Valid()
      ensures queue == [] && played == [] && workerAlive == engineAvailable
    {
      queue := [];
      played := [];
      workerAlive := engineAvailable;
    }

    /** `speak`: a non-blocking put. The message goes on the tail unless the
        queue is full, and then it is dropped. `accepted` is false exactly when
        the "queue full" warning is logged. */
    method Speak(message: string) returns (accepted: bool)
      requires Valid()
      modifies this
      ensures Valid()
      ensures accepted <==> |old(queue)| < Capacity
      ensures queue == if accepted then old(queue) + [Utterance(message)] else old(queue)
      ensures played == old(played) && workerAlive == old(workerAlive)
    {
      if |queue| < Capacity {
        queue := queue + [Utterance(message)];
        accepted := true;
      } else {
        accepted := false;
      }
    }

    /** One pass of the worker loop: one `get`. A dead worker does nothing.
        An empty queue is the `Empty` timeout, and nothing changes. The
        sentinel ends the worker. A text is played when `playbackOk` holds and
        is skipped otherwise; the worker goes on either way. */
    method WorkerStep(playbackOk: bool)
      requires Valid()
      modifies this
      ensures Valid()
      ensures !old(workerAlive) || old(queue) == [] ==>
        queue == old(queue) && played == old(played) && workerAlive == old(workerAlive)
      ensures old(workerAlive) && old(queue) != [] ==> queue == old(queue)[1..]
      ensures old(workerAlive) && old(queue) != [] && old(queue)[0] == Sentinel ==>
        !workerAlive && played == old(played)
      ensures old(workerAlive) && old(queue) != [] && old(queue)[0].Utterance? ==>
        workerAlive && played == old(played) + (if playbackOk then [old(queue)[0].text] else [])
    {
      if workerAlive && queue != [] {
        var message := queue[0];
        queue := queue[1..];
        match message
        case Sentinel =>
          workerAlive := false;
        case Utterance(t) =>
          if playbackOk {
            played := played + [t];
          }
      }
    }

    /** The worker running until the queue is empty or it stops, with `ok[i]`
        the outcome of the i-th playback. A live worker does what `Consume`
        says. */
    method Drain(ok: seq<bool>)
      requires Valid()
      requires |ok| >= |queue|
      modifies this
      ensures Valid()
      ensures !old(workerAlive) ==> queue == old(queue) && played == old(played) && !workerAlive
      ensures old(workerAlive) ==>
        var r := Consume(old(queue), ok);
        played == old(played) + r.played && queue == r.rest && workerAlive == !r.stopped
    {
      var i := 0;
      ghost var q0 := queue;
      ghost var p0 := played;
      ghost var acc: seq<string> := [];
      while workerAlive && queue != []
        invariant Valid()
        invariant 0 <= i <= |q0| && queue == q0[i..]
        invariant played == p0 + acc
        invariant old(workerAlive) && workerAlive ==> Consume(q0, ok) == Resume(acc, Consume(queue, ok[i..]))
        invariant old(workerAlive) && !workerAlive ==> Consume(q0, ok) == WorkerRun(acc, true, queue)
        invariant !old(workerAlive) ==> !workerAlive && i == 0 && played == p0
        decreases |queue|
      {
        ConsumeHead(acc, queue, ok[i..]);
        assert ok[i..][0] == ok[i] && ok[i..][1..] == ok[i + 1..];
        ghost var head := queue[0];
        WorkerStep(ok[i]);
        acc := acc + (if head.Utterance? && ok[i] then [head.text] else []);
        i := i + 1;
      }
      assert old(workerAlive) && workerAlive ==> Consume(queue, ok[i..]) == WorkerRun([], false, []);
    }

    /** `shutdown`: a blocking put of the sentinel, then waiting for the worker.
        When the queue is full, a live worker has to take one item first; a
        dead worker never does, and the put blocks for good (`blocked`). After
        the put, the worker drains the queue up to and including the sentinel.
        The two-second bound on the wait is not modelled. */
    method Shutdown(ok: seq<bool>) returns (blocked: bool)
      requires Valid()
      requires |ok| > |queue|
      modifies this
      ensures Valid()
      ensures blocked <==> |old(queue)| == Capacity && !old(workerAlive)
      ensures blocked ==> queue == old(queue) && played == old(played) && workerAlive == old(workerAlive)
      ensures !blocked && old(workerAlive) ==>
        && !workerAlive
        && played == old(played) + Consume(old(queue) + [Sentinel], ok).played
        && queue == Consume(old(queue) + [Sentinel], ok).rest
      ensures !blocked && !old(workerAlive) ==>
        queue == old(queue) + [Sentinel] && played == old(played) && !workerAlive
    {
      if |queue| == Capacity && !workerAlive {
        blocked := true;
        return;
      }
      blocked := false;
      ghost var q0 := queue;
      ghost var p0 := played;
      ghost var alive0 := workerAlive;
      var rest := ok;
      if |queue| == Capacity {
        // The worker frees a slot by taking the head.
        assert queue == [queue[0]] + queue[1..];
        WorkerStep(ok[0]);
        rest := ok[1..];
        if !workerAlive {
          // The head was a sentinel already: the worker is gone and the put
          // of the new sentinel succeeds without being read.
          queue := queue + [Sentinel];
          assert Consume(q0 + [Sentinel], ok) == WorkerRun([], true, q0[1..] + [Sentinel]) by {
            assert (q0 + [Sentinel])[0] == Sentinel;
            assert (q0 + [Sentinel])[1..] == q0[1..] + [Sentinel];
          }
          return;
        }
      }
      ghost var p1 := played;
      ghost var q1 := queue;
      queue := queue + [Sentinel];
      Drain(rest);
      ConsumeStopsOnTrailingSentinel(q1, rest);
      if |q0| == Capacity {
        assert q0 + [Sentinel] == [q0[0]] + (q1 + [Sentinel]);
        assert ok[1..] == rest;
      } else {
        assert rest == ok;
      }
    }
  }

  /** A queue that ends with a sentinel always stops the worker. */
  lemma {:induction false} ConsumeStopsOnTrailingSentinel(items: seq<Message>, ok: seq<bool>)
    requires |ok| >= |items| + 1
    ensures Consume(items + [Sentinel], ok).stopped
    decreases |items|
  {
    if items != [] {
      assert (items + [Sentinel])[1..] == items[1..] + [Sentinel];
      ConsumeStopsOnTrailingSentinel(items[1..], ok[1..]);
    }
  }
}
