/**
 * The debounce and cooldown rules shared by every BlindAid mode.
 *
 * A single cooldown gate (the guardian "Stop" warning, the reading-mode speech,
 * the scene object summary, the object-detection auto-announce) fires at `now`
 * only when `now - last > interval` and then records `last := now`. A
 * debounce ledger (scene faces, the face-recognition services) keeps one such
 * `last` per key in a map. The lemmas here show that these rules never let two
 * announcements of the same key come closer than the interval.
 */
module Cooldown {
  import opened Common

  /** The `now - last > interval` test of every cooldown in the system. */
  predicate Due(last: real, now: real, interval: real)
  {
    now - last > interval
  }

  /** The times at which one cooldown gate fires over successive attempts, from an initial `last`. */
  function Fired(last: real, attempts: seq<real>, interval: real): seq<real>
    decreases |attempts|
  {
    if attempts == [] then []
    else if Due(last, attempts[0], interval) then [attempts[0]] + Fired(attempts[0], attempts[1..], interval)
    else Fired(last, attempts[1..], interval)
  }

  /** Every time in `times` is more than `interval` after `last`. */
  predicate AllLaterThan(times: seq<real>, last: real, interval: real)
  {
    forall i :: 0 <= i < |times| ==> times[i] - last > interval
  }

  /** Any two times of `times`, taken in order, are more than `interval` apart. */
  predicate Spaced(times: seq<real>, interval: real)
  {
    forall i, j :: 0 <= i < j < |times| ==> times[j] - times[i] > interval
  }

  /** The cooldown holds for one gate: every firing is more than `interval` after the initial `last`
      and after every earlier firing, whatever order the clock readings come in. */
  lemma {:induction false} FiredIsSpaced(last: real, attempts: seq<real>, interval: real)
    requires interval >= 0.0
    ensures AllLaterThan(Fired(last, attempts, interval), last, interval)
    ensures Spaced(Fired(last, attempts, interval), interval)
    decreases |attempts|
  {
    if attempts != [] {
      var a := attempts[0];
      var f := Fired(last, attempts, interval);
      if Due(last, a, interval) {
        FiredIsSpaced(a, attempts[1..], interval);
        var rest := Fired(a, attempts[1..], interval);
        assert f == [a] + rest;
        forall i | 0 <= i < |f|
          ensures f[i] - last > interval
        {
          if i > 0 { assert f[i] == rest[i - 1]; }
        }
        forall i, j | 0 <= i < j < |f|
          ensures f[j] - f[i] > interval
        {
          assert f[j] == rest[j - 1];
          if i > 0 { assert f[i] == rest[i - 1]; }
        }
      } else {
        FiredIsSpaced(last, attempts[1..], interval);
        assert f == Fired(last, attempts[1..], interval);
      }
    }
  }

  /** A firing only happens at an attempt: `Fired` picks a subsequence of the attempts. */
  lemma {:induction false} FiredAreAttempts(last: real, attempts: seq<real>, interval: real)
    ensures |Fired(last, attempts, interval)| <= |attempts|
    ensures forall t :: t in Fired(last, attempts, interval) ==> t in attempts
    decreases |attempts|
  {
    if attempts != [] {
      var a := attempts[0];
      if Due(last, a, interval) {
        FiredAreAttempts(a, attempts[1..], interval);
      } else {
        FiredAreAttempts(last, attempts[1..], interval);
      }
    }
  }

  /** The attempts whose other conditions hold (`wanted`), by their times. */
  function WantedTimes(attempts: seq<(real, bool)>): seq<real>
    decreases |attempts|
  {
    if attempts == [] then []
    else if attempts[0].1 then [attempts[0].0] + WantedTimes(attempts[1..])
    else WantedTimes(attempts[1..])
  }

  /** The firings of a gate that also needs the mode's own conditions, such
      as audio being on or text being stable: an attempt fires when it is
      wanted and due, and only a firing moves `last`. */
  function GatedFired(last: real, attempts: seq<(real, bool)>, interval: real): seq<real>
    decreases |attempts|
  {
    if attempts == [] then []
    else if attempts[0].1 && Due(last, attempts[0].0, interval) then
      [attempts[0].0] + GatedFired(attempts[0].0, attempts[1..], interval)
    else GatedFired(last, attempts[1..], interval)
  }

  /** Unwanted attempts are invisible to the gate: it fires as the plain gate
      does on the wanted attempts alone. So its firings are spaced as well. */
  lemma {:induction false} GatedIsFiredOfWanted(last: real, attempts: seq<(real, bool)>, interval: real)
    ensures GatedFired(last, attempts, interval) == Fired(last, WantedTimes(attempts), interval)
    decreases |attempts|
  {
    if attempts != [] {
      var a := attempts[0];
      if a.1 {
        assert WantedTimes(attempts) == [a.0] + WantedTimes(attempts[1..]);
        assert ([a.0] + WantedTimes(attempts[1..]))[1..] == WantedTimes(attempts[1..]);
        if Due(last, a.0, interval) {
          GatedIsFiredOfWanted(a.0, attempts[1..], interval);
        } else {
          GatedIsFiredOfWanted(last, attempts[1..], interval);
        }
      } else {
        GatedIsFiredOfWanted(last, attempts[1..], interval);
      }
    }
  }

  /** The cooldown holds for a gate with extra conditions too. */
  lemma GatedIsSpaced(last: real, attempts: seq<(real, bool)>, interval: real)
    requires interval >= 0.0
    ensures AllLaterThan(GatedFired(last, attempts, interval), last, interval)
    ensures Spaced(GatedFired(last, attempts, interval), interval)
  {
    GatedIsFiredOfWanted(last, attempts, interval);
    FiredIsSpaced(last, WantedTimes(attempts), interval);
  }

  // ---------------------------------------------------------------------------
  // Per-key debounce ledger
  // ---------------------------------------------------------------------------

  /** One announcement attempt: a key, the clock reading, and what the announcement says. */
  datatype Event<T> = Event(key: string, time: real, payload: T)

  /** Whether the ledger lets `key` be announced at `now`. A key with no entry is
      allowed outright when `absent` is `None` (`name not in last_spoken`), and is
      compared against `absent.value` otherwise (`last_face_speech.get(label, 0.0)`). */
  predicate Allows(ledger: map<string, real>, key: string, now: real, interval: real, absent: Option<real>)
  {
    if key in ledger then Due(ledger[key], now, interval)
    else absent.None? || Due(absent.value, now, interval)
  }

  /** The ledger after a run of attempts: each allowed attempt records its time under its key. */
  function LedgerAfter<T>(ledger: map<string, real>, events: seq<Event<T>>, interval: real, absent: Option<real>): map<string, real>
    decreases |events|
  {
    if events == [] then ledger
    else
      var before := LedgerAfter(ledger, events[..|events| - 1], interval, absent);
      var e := events[|events| - 1];
      if Allows(before, e.key, e.time, interval, absent) then before[e.key := e.time] else before
  }

  /** The attempts of a run that are announced, in order. */
  function Announced<T>(ledger: map<string, real>, events: seq<Event<T>>, interval: real, absent: Option<real>): seq<Event<T>>
    decreases |events|
  {
    if events == [] then []
    else
      var init := events[..|events| - 1];
      var before := LedgerAfter(ledger, init, interval, absent);
      var e := events[|events| - 1];
      Announced(ledger, init, interval, absent) + (if Allows(before, e.key, e.time, interval, absent) then [e] else [])
  }

  /** Every announcement in `a` has an entry in `ledger` no earlier than itself. */
  predicate Remembered<T>(a: seq<Event<T>>, ledger: map<string, real>)
  {
    forall i :: 0 <= i < |a| ==> a[i].key in ledger && a[i].time <= ledger[a[i].key]
  }

  /** Two announcements of the same key in `a`, taken in order, are more than `interval` apart. */
  predicate SpacedPerKey<T>(a: seq<Event<T>>, interval: real)
  {
    forall i, j :: 0 <= i < j < |a| && a[i].key == a[j].key ==> a[j].time - a[i].time > interval
  }

  /** One more attempt at the end of a run: it is announced iff the ledger
      left by the run allows it, and then the ledger records it. */
  lemma RunSnoc<T>(ledger: map<string, real>, events: seq<Event<T>>, e: Event<T>, interval: real, absent: Option<real>)
    ensures Allows(LedgerAfter(ledger, events, interval, absent), e.key, e.time, interval, absent) ==>
      && Announced(ledger, events + [e], interval, absent) == Announced(ledger, events, interval, absent) + [e]
      && LedgerAfter(ledger, events + [e], interval, absent) == LedgerAfter(ledger, events, interval, absent)[e.key := e.time]
    ensures !Allows(LedgerAfter(ledger, events, interval, absent), e.key, e.time, interval, absent) ==>
      && Announced(ledger, events + [e], interval, absent) == Announced(ledger, events, interval, absent)
      && LedgerAfter(ledger, events + [e], interval, absent) == LedgerAfter(ledger, events, interval, absent)
  {
    assert (events + [e])[..|events|] == events;
  }

  /** No key is announced twice in `a`. */
  predicate KeysDistinct<T>(a: seq<Event<T>>)
  {
    forall i, j :: 0 <= i < j < |a| ==> a[i].key != a[j].key
  }

  /** What the ledger remembers: every announced key has an entry no earlier than each of its announcements. */
  lemma {:induction false} LedgerRemembers<T>(ledger: map<string, real>, events: seq<Event<T>>, interval: real, absent: Option<real>)
    requires interval >= 0.0
    ensures Remembered(Announced(ledger, events, interval, absent), LedgerAfter(ledger, events, interval, absent))
    decreases |events|
  {
    if events != [] {
      var init := events[..|events| - 1];
      var before := LedgerAfter(ledger, init, interval, absent);
      var prev := Announced(ledger, init, interval, absent);
      var e := events[|events| - 1];
      LedgerRemembers(ledger, init, interval, absent);
      var a := Announced(ledger, events, interval, absent);
      var after := LedgerAfter(ledger, events, interval, absent);
      if Allows(before, e.key, e.time, interval, absent) {
        assert a == prev + [e] && after == before[e.key := e.time];
        forall i | 0 <= i < |a|
          ensures a[i].key in after && a[i].time <= after[a[i].key]
        {
          if i < |prev| {
            assert a[i] == prev[i];
          }
        }
      } else {
        assert a == prev && after == before;
      }
    }
  }

  /** The cooldown holds per key of a ledger: two announcements of the same key are always more than
      `interval` apart, and a key is announced at most once per instant. */
  lemma {:induction false} AnnouncedIsSpacedPerKey<T>(ledger: map<string, real>, events: seq<Event<T>>, interval: real, absent: Option<real>)
    requires interval >= 0.0
    ensures SpacedPerKey(Announced(ledger, events, interval, absent), interval)
    decreases |events|
  {
    if events != [] {
      var init := events[..|events| - 1];
      var before := LedgerAfter(ledger, init, interval, absent);
      var e := events[|events| - 1];
      var prev := Announced(ledger, init, interval, absent);
      AnnouncedIsSpacedPerKey(ledger, init, interval, absent);
      LedgerRemembers(ledger, init, interval, absent);
      if Allows(before, e.key, e.time, interval, absent) {
        var a := prev + [e];
        forall i | 0 <= i < |prev| && prev[i].key == e.key
          ensures e.time - prev[i].time > interval
        {
          assert prev[i].key in before && prev[i].time <= before[prev[i].key];
        }
        assert Announced(ledger, events, interval, absent) == a;
        forall i, j | 0 <= i < j < |a| && a[i].key == a[j].key
          ensures a[j].time - a[i].time > interval
        {
          if j < |prev| {
            assert a[i] == prev[i] && a[j] == prev[j];
          } else {
            assert a[i] == prev[i] && a[j] == e;
          }
        }
      }
    }
  }

  /** Announcements are attempts, kept in order. */
  lemma {:induction false} AnnouncedAreEvents<T>(ledger: map<string, real>, events: seq<Event<T>>, interval: real, absent: Option<real>)
    ensures |Announced(ledger, events, interval, absent)| <= |events|
    ensures forall e :: e in Announced(ledger, events, interval, absent) ==> e in events
    decreases |events|
  {
    if events != [] {
      AnnouncedAreEvents(ledger, events[..|events| - 1], interval, absent);
    }
  }
}
