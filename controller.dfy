/**
 * The mode controller of blindaid/controller.py: the registry of the four
 * modes, built lazily, mode switching with its "Switched to ..." overlay,
 * timed overlays pruned when read, the FPS frame counter, the speech hand-off
 * that skips empty strings, the caption and question-answering requests, and
 * one pass of the main loop with people mode's automatic return and the
 * hotkeys.
 *
 * The modes themselves are opaque here: a mode instance is known by its key
 * and the serial number of the factory call that built it; what people mode's
 * `is_finished` answers and what a mode's `process_frame` returns are inputs.
 * The camera, the window, the caption and speech-recognition models are
 * foreign; their results are inputs. `now` is the clock.
 */
module Controller {
  import opened Common
  import Config

  /** The keys of `_mode_factories`. */
  const ModeKeys: set<string> := {"sitting", "guardian", "reading", "people"}

  /** `mode_labels`. */
  function Label(key: string): string
  {
    if key == "sitting" then "Sitting"
    else if key == "guardian" then "Walking"
    else if key == "reading" then "Reading"
    else if key == "people" then "People"
    else key
  }

  /** The starting mode: `(initial_mode or "sitting").lower()`, replaced by
      "sitting" when it names no mode. The result is always a mode, and it is
      the lower-cased request whenever that names one. */
  function InitialMode(requested: Option<string>): (k: string)
    ensures k in ModeKeys
    ensures requested.Some? && requested.value != "" && Lower(requested.value) in ModeKeys ==> k == Lower(requested.value)
    ensures requested.None? || requested.value == "" || Lower(requested.value) !in ModeKeys ==> k == "sitting"
  {
    var r := if requested.None? || requested.value == "" then "sitting" else Lower(requested.value);
    if r in ModeKeys then r else "sitting"
  }

  /** A request holding a character beyond ASCII never names a mode, so it
      falls back to "sitting": every mode key is plain ASCII, and the ASCII
      fold keeps such a character. */
  lemma NonAsciiRequestFallsBack(s: string, i: int)
    requires 0 <= i < |s| && s[i] as int >= 128
    ensures InitialMode(Some(s)) == "sitting"
  {
    assert Lower(s)[i] == s[i];
    forall k | k in ModeKeys
      ensures Lower(s) != k
    {
      assert forall j :: 0 <= j < |k| ==> k[j] as int < 128;
    }
  }

  /** `audio_enabled`: the configured default, which a caller can only turn off. */
  function AudioSetting(requested: Option<bool>, default: bool): (on: bool)
    ensures on ==> default
    ensures requested.None? ==> on == default
    ensures requested == Some(false) ==> !on
  {
    if requested.None? then default else requested.value && default
  }

  /** A mode object: the key it was built for and which factory call built it. */
  datatype ModeInstance = ModeInstance(key: string, serial: nat)

  /** A mode hook the controller calls. The sitting mode is `None` and has
      neither hook. */
  datatype Hook = OnExit(key: string) | OnEnter(key: string)

  function ExitHooks(key: string): seq<Hook>
  {
    if key == "sitting" then [] else [OnExit(key)]
  }

  function EnterHooks(key: string): seq<Hook>
  {
    if key == "sitting" then [] else [OnEnter(key)]
  }

  // ---------------------------------------------------------------------------
  // Overlays
  // ---------------------------------------------------------------------------

  /** `OverlayMessage`. */
  datatype Overlay = Overlay(text: string, expiresAt: real)

  /** The overlays still showing at `now`, in insertion order. */
  function Unexpired(overlays: seq<Overlay>, now: real): seq<Overlay>
    decreases |overlays|
  {
    if overlays == [] then []
    else
      var before := Unexpired(overlays[..|overlays| - 1], now);
      var o := overlays[|overlays| - 1];
      if o.expiresAt > now then before + [o] else before
  }

  function Texts(overlays: seq<Overlay>): (r: seq<string>)
    ensures |r| == |overlays|
    ensures forall i :: 0 <= i < |overlays| ==> r[i] == overlays[i].text
  {
    seq(|overlays|, i requires 0 <= i < |overlays| => overlays[i].text)
  }

  /** Pruning keeps exactly the overlays that expire after `now`, and never
      adds one. */
  lemma {:induction false} UnexpiredExact(overlays: seq<Overlay>, now: real)
    ensures |Unexpired(overlays, now)| <= |overlays|
    ensures forall o :: o in Unexpired(overlays, now) <==> o in overlays && o.expiresAt > now
    decreases |overlays|
  {
    if overlays != [] {
      var init := overlays[..|overlays| - 1];
      UnexpiredExact(init, now);
      assert overlays == init + [overlays[|overlays| - 1]];
    }
  }

  /** Pruning at `t1` and then at a later `t2` is pruning at `t2`. In
      particular a second read at the same instant finds the same overlays. */
  lemma {:induction false} UnexpiredLater(overlays: seq<Overlay>, t1: real, t2: real)
    requires t1 <= t2
    ensures Unexpired(Unexpired(overlays, t1), t2) == Unexpired(overlays, t2)
    decreases |overlays|
  {
    if overlays != [] {
      var init := overlays[..|overlays| - 1];
      var o := overlays[|overlays| - 1];
      UnexpiredLater(init, t1, t2);
      var b := Unexpired(init, t1);
      if o.expiresAt > t1 {
        assert Unexpired(overlays, t1) == b + [o];
        assert (b + [o])[..|b + [o]| - 1] == b;
      }
    }
  }

  /** A read at the same instant changes nothing more. */
  lemma UnexpiredIdempotent(overlays: seq<Overlay>, now: real)
    ensures Unexpired(Unexpired(overlays, now), now) == Unexpired(overlays, now)
  {
    UnexpiredLater(overlays, now, now);
  }

  // ---------------------------------------------------------------------------
  // Speech and the drawn lines
  // ---------------------------------------------------------------------------

  /** The messages `_speak_messages` passes on: the non-empty ones, in order. */
  function NonEmpty(messages: seq<string>): seq<string>
    decreases |messages|
  {
    if messages == [] then []
    else
      var before := NonEmpty(messages[..|messages| - 1]);
      var m := messages[|messages| - 1];
      if m != "" then before + [m] else before
  }

  /** No empty string is ever passed on, and every other message is. */
  lemma {:induction false} NonEmptyExact(messages: seq<string>)
    ensures |NonEmpty(messages)| <= |messages|
    ensures forall m :: m in NonEmpty(messages) <==> m in messages && m != ""
    ensures (forall i :: 0 <= i < |messages| ==> messages[i] != "") ==> NonEmpty(messages) == messages
    decreases |messages|
  {
    if messages != [] {
      var init := messages[..|messages| - 1];
      NonEmptyExact(init);
      assert messages == init + [messages[|messages| - 1]];
      if forall i :: 0 <= i < |messages| ==> messages[i] != "" {
        assert forall i :: 0 <= i < |init| ==> init[i] != "" by {
          forall i | 0 <= i < |init| ensures init[i] != "" {
            assert init[i] == messages[i];
          }
        }
        assert NonEmpty(messages) == init + [messages[|messages| - 1]];
      }
    }
  }

  /** `lines_to_draw[-6:]`: the last six lines, or all of them when fewer. */
  function LastSix(lines: seq<string>): (r: seq<string>)
    ensures |r| == Min(6, |lines|)
    ensures r == lines[|lines| - |r|..]
  {
    if |lines| <= 6 then lines else lines[|lines| - 6..]
  }

  /** The dynamic lines on screen, bottom first: the mode's info lines and
      then the overlays, of which only the last six are drawn. */
  function DrawnLines(info: seq<string>, extra: seq<string>): (r: seq<string>)
    ensures |r| == Min(6, |info| + |extra|)
    ensures forall i :: 0 <= i < |r| ==> r[i] == (info + extra)[|info| + |extra| - 1 - i]
  {
    var lines := info + extra;
    var shown := LastSix(lines);
    var r := Reversed(shown);
    assert forall i :: 0 <= i < |r| ==> r[i] == shown[|shown| - 1 - i] == lines[|lines| - 1 - i];
    r
  }

  /** `s` back to front. */
  function Reversed(s: seq<string>): (r: seq<string>)
    ensures |r| == |s|
    ensures forall i :: 0 <= i < |r| ==> r[i] == s[|s| - 1 - i]
  {
    seq(|s|, i requires 0 <= i < |s| => s[|s| - 1 - i])
  }

  // ---------------------------------------------------------------------------
  // The FPS counter
  // ---------------------------------------------------------------------------

  /** `_update_fps` on the counter: count the frame, start again at 20. */
  function NextFpsCounter(c: int): int
  {
    if c + 1 >= 20 then 0 else c + 1
  }

  /** The counter after `n` frames from `c`. */
  function FpsCounterAfter(c: int, n: nat): int
  {
    if n == 0 then c else NextFpsCounter(FpsCounterAfter(c, n - 1))
  }

  /** From a fresh controller the counter is the number of frames modulo 20,
      so it stays in [0, 20) and returns to 0 on every 20th frame. */
  lemma {:induction false} FpsCounterCountsModulo20(n: nat)
    ensures FpsCounterAfter(0, n) == n % 20
    ensures 0 <= FpsCounterAfter(0, n) < 20
  {
    if n > 0 {
      FpsCounterCountsModulo20(n - 1);
    }
  }

  // ---------------------------------------------------------------------------
  // Caption and question answering
  // ---------------------------------------------------------------------------

  /** What the caption request meets: the captioning fails (raises), or
      it returns a caption, possibly empty. */
  datatype CaptionOutcome = CaptionFailed | Caption(text: string)

  /** What the question request meets: the speech listener cannot be built,
      listening raises, no question is heard, answering raises after the
      question, or an answer (possibly empty) comes back. */
  datatype VqaOutcome =
    | ListenerFailed
    | ListenFailed
    | NoQuestion
    | AnswerFailed(question: string)
    | Answered(question: string, answer: string)

  /** The overlays (text and duration) and the speech of a caption request. */
  function CaptionEffects(c: CaptionOutcome): (seq<(string, real)>, seq<string>)
  {
    match c
    case CaptionFailed => ([("Analyzing scene...", 2.0), ("Caption error - see logs", 3.0)], [])
    case Caption(t) =>
      if t != "" then ([("Analyzing scene...", 2.0), ("Caption: " + t, 6.0)], [t])
      else ([("Analyzing scene...", 2.0), ("Caption: (no description)", 3.0)], [])
  }

  /** The overlays and the speech of a question request. */
  function VqaEffects(v: VqaOutcome): (seq<(string, real)>, seq<string>)
  {
    var listening := [("Listening... (Speak now)", 5.0)];
    var error := ([("Error processing question", 3.0)], ["Sorry, I encountered an error."]);
    match v
    case ListenerFailed => error
    case ListenFailed => (listening + error.0, ["Listening..."] + error.1)
    case NoQuestion => (listening + [("No question heard.", 2.0)], ["Listening...", "I didn't hear a question."])
    case AnswerFailed(q) =>
      (listening + [("Q: " + q, 4.0), ("Thinking...", 2.0)] + error.0, ["Listening...", "You asked: " + q] + error.1)
    case Answered(q, a) =>
      if a != "" then
        (listening + [("Q: " + q, 4.0), ("Thinking...", 2.0), ("A: " + a, 6.0)], ["Listening...", "You asked: " + q, a])
      else
        (listening + [("Q: " + q, 4.0), ("Thinking...", 2.0), ("Could not answer.", 2.0)],
         ["Listening...", "You asked: " + q, "I couldn't find an answer."])
  }

  /** Every question request ends by saying something: the answer, or why
      there is none. A caption request shows "Analyzing scene..." first and
      speaks only a non-empty caption. */
  lemma RequestsAlwaysReport(v: VqaOutcome, c: CaptionOutcome)
    ensures var s := VqaEffects(v).1;
      && |s| >= 1
      && (s[|s| - 1] == "Sorry, I encountered an error." || s[|s| - 1] == "I didn't hear a question."
          || s[|s| - 1] == "I couldn't find an answer." || (v.Answered? && s[|s| - 1] == v.answer && v.answer != ""))
    ensures v.Answered? && v.answer != "" ==> VqaEffects(v).1[|VqaEffects(v).1| - 1] == v.answer
    ensures |CaptionEffects(c).0| == 2 && CaptionEffects(c).0[0] == ("Analyzing scene...", 2.0)
    ensures CaptionEffects(c).1 != [] <==> c.Caption? && c.text != ""
  {
  }

  /** Overlays for `(text, duration)` pairs shown at `now`. */
  function Timed(pairs: seq<(string, real)>, now: real): (r: seq<Overlay>)
    ensures |r| == |pairs|
    ensures forall i :: 0 <= i < |pairs| ==> r[i] == Overlay(pairs[i].0, now + pairs[i].1)
  {
    seq(|pairs|, i requires 0 <= i < |pairs| => Overlay(pairs[i].0, now + pairs[i].1))
  }

  // ---------------------------------------------------------------------------
  // The mode registry
  // ---------------------------------------------------------------------------

  /** Every stored instance is under a mode key, was built for that key, and
      came from one of the first `created` factory calls. */
  ghost predicate RegistryOk(instances: map<string, ModeInstance>, created: nat)
  {
    forall k :: k in instances ==> k in ModeKeys && instances[k].key == k && instances[k].serial < created
  }

  /** The registry and the factory-call count after `_get_mode(key)`. */
  function Registered(instances: map<string, ModeInstance>, created: nat, key: string): (map<string, ModeInstance>, nat)
  {
    if key !in ModeKeys || key in instances then (instances, created)
    else (instances[key := ModeInstance(key, created)], created + 1)
  }

  /** The registry after `_get_mode(k1)` and then `_get_mode(k2)`. */
  function RegisteredBoth(instances: map<string, ModeInstance>, created: nat, k1: string, k2: string): (map<string, ModeInstance>, nat)
  {
    var (i1, c1) := Registered(instances, created, k1);
    Registered(i1, c1, k2)
  }

  /** `_get_mode` builds each mode at most once: a stored instance is never
      replaced, a mode key is stored afterwards, nothing else is added, a
      second lookup of the same key changes nothing, and the registry stays
      well formed. */
  lemma RegisteredBuildsOnce(instances: map<string, ModeInstance>, created: nat, key: string)
    requires RegistryOk(instances, created)
    ensures var (after, n) := Registered(instances, created, key);
      && RegistryOk(after, n)
      && (forall k :: k in instances ==> k in after && after[k] == instances[k])
      && after.Keys == instances.Keys + (if key in ModeKeys then {key} else {})
      && (key in ModeKeys && key !in instances ==> after[key] == ModeInstance(key, created) && n == created + 1)
      && (key !in ModeKeys || key in instances ==> n == created)
      && Registered(after, n, key) == (after, n)
  {
  }

  /** The hooks `_switch_mode(target)` calls from `current`: none when the
      mode stays, otherwise the old mode's exit and then the new mode's enter. */
  function SwitchHooks(target: string, current: string): seq<Hook>
  {
    if target != current && target in ModeKeys then ExitHooks(current) + EnterHooks(target) else []
  }

  /** The registry and factory-call count after `_switch_mode(target)` from
      `current`: both modes are looked up only when the mode changes. */
  function SwitchRegistry(reg: (map<string, ModeInstance>, nat), target: string, current: string): (map<string, ModeInstance>, nat)
  {
    if target != current && target in ModeKeys then RegisteredBoth(reg.0, reg.1, current, target) else reg
  }

  /** A switch keeps every stored mode object and the registry well formed;
      after a real switch both modes are stored, at most two objects were
      built, the old mode's exit hook comes first and the new mode's enter
      hook last, and the "Switched to" overlay goes with the hooks. */
  lemma SwitchEffects(reg: (map<string, ModeInstance>, nat), target: string, current: string, now: real)
    requires RegistryOk(reg.0, reg.1) && target in ModeKeys && current in ModeKeys
    ensures var (after, n) := SwitchRegistry(reg, target, current);
      && RegistryOk(after, n)
      && (forall k :: k in reg.0 ==> k in after && after[k] == reg.0[k])
      && reg.1 <= n <= reg.1 + 2
      && (target != current ==> current in after && target in after)
      && (target == current ==> (after, n) == reg)
    ensures target == current <==> SwitchHooks(target, current) == [] && SwitchOverlays(target, current, now) == []
    ensures target != current && current != "sitting" ==> SwitchHooks(target, current)[0] == OnExit(current)
    ensures target != current && target != "sitting" ==>
      SwitchHooks(target, current)[|SwitchHooks(target, current)| - 1] == OnEnter(target)
  {
    if target != current {
      RegisteredBuildsOnce(reg.0, reg.1, current);
      var (i1, c1) := Registered(reg.0, reg.1, current);
      RegisteredBuildsOnce(i1, c1, target);
    }
  }

  /** The lines a mode shows: the sitting mode's hint, or what the mode gave. */
  function ModeInfo(key: string, modeInfo: seq<string>): (r: seq<string>)
    ensures key == "sitting" ==> r == ["Sitting Mode - Press 1-5 for features"]
    ensures key != "sitting" ==> r == modeInfo
  {
    if key == "sitting" then ["Sitting Mode - Press 1-5 for features"] else modeInfo
  }

  /** The speech of a mode's frame: none for the sitting mode. */
  function ModeSpeech(key: string, modeSpeech: seq<string>): (r: seq<string>)
    ensures key == "sitting" ==> r == []
    ensures key != "sitting" ==> r == modeSpeech
  {
    if key == "sitting" then [] else modeSpeech
  }

  /** The overlay the automatic return from a finished people mode adds:
      none unless people mode is running, has finished, and was entered from
      another mode. */
  function SwitchOverlay(current: string, previous: string, peopleFinished: bool, now: real): (r: seq<Overlay>)
    ensures |r| <= 1
    ensures r != [] <==> current == "people" && peopleFinished && previous != "people"
  {
    if current == "people" && peopleFinished && previous != "people" then
      [Overlay("Switched to " + Label(previous) + " mode", now + 2.5)]
    else []
  }

  /** A key read from the window. */
  datatype Key = KeyQuit | Key0 | Key1 | Key2 | Key3 | Key4 | Key5 | KeyT | OtherKey

  /** The mode a key leaves the controller in, from mode `current`: "0",
      "1" and "2" pick sitting, guardian and reading; "3" picks people from
      any other mode; every other key keeps the mode. */
  function KeyTarget(key: Key, current: string): string
  {
    match key
    case Key0 => "sitting"
    case Key1 => "guardian"
    case Key2 => "reading"
    case Key3 => "people"
    case _ => current
  }

  /** The overlays a key adds at `now`: one "Switched to" line when it
      changes the mode, the request's lines for "4" and "5", and "TTS Test"
      for "t". */
  function KeyOverlays(key: Key, current: string, now: real, caption: CaptionOutcome, vqa: VqaOutcome): seq<Overlay>
  {
    match key
    case Key4 => Timed(VqaEffects(vqa).0, now)
    case Key5 => Timed(CaptionEffects(caption).0, now)
    case KeyT => [Overlay("TTS Test", now + 2.0)]
    case _ => SwitchOverlays(KeyTarget(key, current), current, now)
  }

  /** The overlay `_switch_mode` adds: one "Switched to" line, only when the
      mode changes. */
  function SwitchOverlays(target: string, current: string, now: real): seq<Overlay>
  {
    if target != current then [Overlay("Switched to " + Label(target) + " mode", now + 2.5)] else []
  }

  /** Every key leaves the controller in a mode. A mode key adds one
      "Switched to" overlay exactly when it changes the mode and says
      nothing; pressed again it changes nothing. "q" and unbound keys do
      nothing at all. */
  lemma KeyEffects(key: Key, current: string, now: real, caption: CaptionOutcome, vqa: VqaOutcome)
    requires current in ModeKeys
    ensures KeyTarget(key, current) in ModeKeys
    ensures key in {Key0, Key1, Key2, Key3} ==>
      && (|KeyOverlays(key, current, now, caption, vqa)| == 1 <==> KeyTarget(key, current) != current)
      && |KeyOverlays(key, current, now, caption, vqa)| <= 1
      && KeySpeech(key, caption, vqa) == []
      && KeyTarget(key, KeyTarget(key, current)) == KeyTarget(key, current)
      && KeyOverlays(key, KeyTarget(key, current), now, caption, vqa) == []
    ensures key in {KeyQuit, OtherKey} ==>
      KeyTarget(key, current) == current && KeyOverlays(key, current, now, caption, vqa) == [] && KeySpeech(key, caption, vqa) == []
  {
  }

  /** What a key asks to say: the request's speech for "4" and "5", the
      audio check for "t", and nothing otherwise. */
  function KeySpeech(key: Key, caption: CaptionOutcome, vqa: VqaOutcome): seq<string>
  {
    match key
    case Key4 => VqaEffects(vqa).1
    case Key5 => CaptionEffects(caption).1
    case KeyT => ["Audio check one two three."]
    case _ => []
  }

  class ModeController {
    const audioEnabled: bool
    /** `audio_player is not None`. */
    var hasAudioPlayer: bool
    /** `_mode_instances`. */
    var instances: map<string, ModeInstance>
    /** The number of factory calls so far. */
    var created: nat
    var currentModeKey: string
    var previousModeKey: string
    var overlays: seq<Overlay>
    var fpsCounter: int
    var fpsLastTime: real
    /** The hooks called so far, in order. */
    var hooks: seq<Hook>
    /** The messages handed to the audio player, and those only logged. */
    var spoken: seq<string>
    var logged: seq<string>

    ghost predicate Valid()
      reads this
    {
      && currentModeKey in ModeKeys && previousModeKey in ModeKeys
      && 0 <= fpsCounter < 20
      && RegistryOk(instances, created)
    }

    /** Inside the loop of `run`: the current mode has been built, since
        `run` looks it up before the loop and every switch looks up its
        target. */
    ghost predicate Running()
      reads this
    {
      Valid() && currentModeKey in instances
    }

    /** `ModeController(...)`. The audio player is built with a `use_online`
        argument that `AudioPlayer.__init__` does not take; the `TypeError` is
        caught, so there is never a player. */
    constructor(audio: Option<bool>, initialMode: Option<string>, now: real)
      ensures Valid()
      ensures audioEnabled == AudioSetting(audio, Config.AudioEnabled) && !hasAudioPlayer
      ensures currentModeKey == previousModeKey == InitialMode(initialMode)
      ensures instances == map[] && created == 0 && overlays == [] && fpsCounter == 0 && fpsLastTime == now
      ensures hooks == [] && spoken == [] && logged == []
    {
      audioEnabled := AudioSetting(audio, Config.AudioEnabled);
      hasAudioPlayer := false;
      instances := map[];
      created := 0;
      var k := InitialMode(initialMode);
      currentModeKey := k;
      previousModeKey := k;
      overlays := [];
      fpsCounter := 0;
      fpsLastTime := now;
      hooks := [];
      spoken := [];
      logged := [];
    }

    /** `_get_mode`: `None` for a key with no factory (the `KeyError`);
        otherwise the stored instance, built by the factory on first use
        only. */
    method GetMode(key: string) returns (m: Option<ModeInstance>)
      requires RegistryOk(instances, created)
      modifies this`instances, this`created
      ensures RegistryOk(instances, created)
      ensures (instances, created) == Registered(old(instances), old(created), key)
      ensures m == if key in ModeKeys then Some(instances[key]) else None
    {
      if key !in ModeKeys {
        return None;
      }
      if key !in instances {
        instances := instances[key := ModeInstance(key, created)];
        created := created + 1;
      }
      m := Some(instances[key]);
      RegisteredBuildsOnce(old(instances), old(created), key);
    }

    /** `_add_overlay`: one overlay at the end, expiring `duration` after `now`. */
    method AddOverlay(text: string, duration: real, now: real)
      modifies this`overlays
      ensures overlays == old(overlays) + [Overlay(text, now + duration)]
    {
      overlays := overlays + [Overlay(text, now + duration)];
    }

    /** `_switch_mode`. Switching to the current mode or to an unknown key
        changes nothing. Otherwise the old mode's `on_exit` and the new one's
        `on_enter` run (their failures are swallowed), the key changes, and
        one overlay announces the switch for 2.5 seconds. */
    method SwitchMode(target: string, now: real)
      requires Valid()
      modifies this`instances, this`created, this`currentModeKey, this`hooks, this`overlays
      ensures Valid()
      ensures old(currentModeKey) in old(instances) ==> currentModeKey in instances
      ensures target == old(currentModeKey) || target !in ModeKeys ==>
        currentModeKey == old(currentModeKey) && overlays == old(overlays)
      ensures target != old(currentModeKey) && target in ModeKeys ==>
        && currentModeKey == target
        && overlays == old(overlays) + [Overlay("Switched to " + Label(target) + " mode", now + 2.5)]
      ensures hooks == old(hooks) + SwitchHooks(target, old(currentModeKey))
      ensures (instances, created) == SwitchRegistry((old(instances), old(created)), target, old(currentModeKey))
    {
      if target == currentModeKey {
        return;
      }
      if target !in ModeKeys {
        return;
      }
      var current := GetMode(currentModeKey);
      hooks := hooks + ExitHooks(currentModeKey);
      currentModeKey := target;
      var next := GetMode(currentModeKey);
      hooks := hooks + EnterHooks(currentModeKey);
      assert hooks == old(hooks) + (ExitHooks(old(currentModeKey)) + EnterHooks(target));
      AddOverlay("Switched to " + Label(currentModeKey) + " mode", 2.5, now);
    }

    /** `_active_overlays`: the loop that keeps the overlays expiring after
        `now`. The stored list becomes the kept overlays and their texts are
        returned. */
    method ActiveOverlays(now: real) returns (messages: seq<string>)
      modifies this`overlays
      ensures overlays == Unexpired(old(overlays), now)
      ensures messages == Texts(overlays)
    {
      var active: seq<Overlay> := [];
      messages := [];
      var i := 0;
      while i < |overlays|
        invariant 0 <= i <= |overlays|
        invariant active == Unexpired(overlays[..i], now)
        invariant messages == Texts(active)
      {
        assert overlays[..i + 1][..i] == overlays[..i];
        var o := overlays[i];
        if o.expiresAt > now {
          active := active + [o];
          messages := messages + [o.text];
        }
        i := i + 1;
      }
      assert overlays[..i] == overlays;
      overlays := active;
    }

    /** `_speak_messages`: every non-empty message, in order, goes to the
        audio player when there is one and to the log otherwise. */
    method SpeakMessages(messages: seq<string>)
      modifies this`spoken, this`logged
      ensures hasAudioPlayer ==> spoken == old(spoken) + NonEmpty(messages) && logged == old(logged)
      ensures !hasAudioPlayer ==> logged == old(logged) + NonEmpty(messages) && spoken == old(spoken)
    {
      if |messages| == 0 {
        return;
      }
      var i := 0;
      while i < |messages|
        invariant 0 <= i <= |messages|
        invariant hasAudioPlayer ==> spoken == old(spoken) + NonEmpty(messages[..i]) && logged == old(logged)
        invariant !hasAudioPlayer ==> logged == old(logged) + NonEmpty(messages[..i]) && spoken == old(spoken)
      {
        assert messages[..i + 1][..i] == messages[..i];
        var m := messages[i];
        if m != "" {
          if hasAudioPlayer {
            spoken := spoken + [m];
          } else {
            logged := logged + [m];
          }
        }
        i := i + 1;
      }
      assert messages[..i] == messages;
    }

    /** `_update_fps`: the counter counts frames and starts again at 20,
        noting the time. */
    method UpdateFps(now: real)
      requires Valid()
      modifies this`fpsCounter, this`fpsLastTime
      ensures Valid()
      ensures fpsCounter == NextFpsCounter(old(fpsCounter))
      ensures fpsLastTime == if old(fpsCounter) + 1 >= 20 then now else old(fpsLastTime)
    {
      fpsCounter := fpsCounter + 1;
      if fpsCounter >= 20 {
        fpsCounter := 0;
        fpsLastTime := now;
      }
    }

    /** Adds the overlays of `pairs` and hands on the speech, one pair and
        one message at a time. */
    method Report(pairs: seq<(string, real)>, speech: seq<string>, now: real)
      modifies this`overlays, this`spoken, this`logged
      ensures overlays == old(overlays) + Timed(pairs, now)
      ensures hasAudioPlayer ==> spoken == old(spoken) + NonEmpty(speech) && logged == old(logged)
      ensures !hasAudioPlayer ==> logged == old(logged) + NonEmpty(speech) && spoken == old(spoken)
    {
      var i := 0;
      while i < |pairs|
        invariant 0 <= i <= |pairs|
        invariant overlays == old(overlays) + Timed(pairs[..i], now)
        invariant spoken == old(spoken) && logged == old(logged)
      {
        AddOverlay(pairs[i].0, pairs[i].1, now);
        assert Timed(pairs[..i + 1], now) == Timed(pairs[..i], now) + [Overlay(pairs[i].0, now + pairs[i].1)];
        i := i + 1;
      }
      assert pairs[..i] == pairs;
      SpeakMessages(speech);
    }

    /** `_handle_caption_request`. */
    method HandleCaption(outcome: CaptionOutcome, now: real)
      modifies this`overlays, this`spoken, this`logged
      ensures overlays == old(overlays) + Timed(CaptionEffects(outcome).0, now)
      ensures hasAudioPlayer ==> spoken == old(spoken) + NonEmpty(CaptionEffects(outcome).1) && logged == old(logged)
      ensures !hasAudioPlayer ==> logged == old(logged) + NonEmpty(CaptionEffects(outcome).1) && spoken == old(spoken)
    {
      var effects := CaptionEffects(outcome);
      Report(effects.0, effects.1, now);
    }

    /** `_handle_vqa_request`. */
    method HandleVqa(outcome: VqaOutcome, now: real)
      modifies this`overlays, this`spoken, this`logged
      ensures overlays == old(overlays) + Timed(VqaEffects(outcome).0, now)
      ensures hasAudioPlayer ==> spoken == old(spoken) + NonEmpty(VqaEffects(outcome).1) && logged == old(logged)
      ensures !hasAudioPlayer ==> logged == old(logged) + NonEmpty(VqaEffects(outcome).1) && spoken == old(spoken)
    {
      var effects := VqaEffects(outcome);
      Report(effects.0, effects.1, now);
    }

    /** Keys "0" to "3": the mode switch they ask for. */
    method ModeKey(key: Key, now: real)
      requires Running() && (key == Key0 || key == Key1 || key == Key2 || key == Key3)
      modifies this`instances, this`created, this`currentModeKey, this`previousModeKey, this`hooks, this`overlays
      ensures Running()
      ensures currentModeKey == KeyTarget(key, old(currentModeKey))
      ensures overlays == old(overlays) + SwitchOverlays(KeyTarget(key, old(currentModeKey)), old(currentModeKey), now)
      ensures key == Key3 && old(currentModeKey) != "people" ==> previousModeKey == old(currentModeKey)
      ensures !(key == Key3 && old(currentModeKey) != "people") ==> previousModeKey == old(previousModeKey)
      ensures hooks == old(hooks) + SwitchHooks(KeyTarget(key, old(currentModeKey)), old(currentModeKey))
      ensures (instances, created) ==
        SwitchRegistry((old(instances), old(created)), KeyTarget(key, old(currentModeKey)), old(currentModeKey))
      ensures spoken == old(spoken) && logged == old(logged)
      ensures fpsCounter == old(fpsCounter) && fpsLastTime == old(fpsLastTime)
    {
      if key == Key3 && currentModeKey != "people" {
        previousModeKey := currentModeKey;
      }
      SwitchMode(KeyTarget(key, currentModeKey), now);
    }

    /** The mode change a hotkey asks for. Key "3" outside people mode first
        remembers the current mode as the one to return to. */
    method HandleKey(key: Key, now: real, caption: CaptionOutcome, vqa: VqaOutcome)
      requires Running()
      modifies this`instances, this`created, this`currentModeKey, this`previousModeKey, this`hooks
      modifies this`overlays, this`spoken, this`logged
      ensures Running()
      ensures key == Key3 && old(currentModeKey) != "people" ==>
        previousModeKey == old(currentModeKey) && currentModeKey == "people"
      ensures !(key == Key3 && old(currentModeKey) != "people") ==> previousModeKey == old(previousModeKey)
      ensures key == Key0 ==> currentModeKey == "sitting"
      ensures key == Key1 ==> currentModeKey == "guardian"
      ensures key == Key2 ==> currentModeKey == "reading"
      ensures key in {KeyQuit, Key3, Key4, Key5, KeyT, OtherKey} && !(key == Key3 && old(currentModeKey) != "people") ==>
        currentModeKey == old(currentModeKey)
      ensures currentModeKey == KeyTarget(key, old(currentModeKey))
      ensures overlays == old(overlays) + KeyOverlays(key, old(currentModeKey), now, caption, vqa)
      ensures hasAudioPlayer ==> spoken == old(spoken) + NonEmpty(KeySpeech(key, caption, vqa)) && logged == old(logged)
      ensures !hasAudioPlayer ==> logged == old(logged) + NonEmpty(KeySpeech(key, caption, vqa)) && spoken == old(spoken)
      ensures hooks == old(hooks) + SwitchHooks(KeyTarget(key, old(currentModeKey)), old(currentModeKey))
      ensures (instances, created) ==
        SwitchRegistry((old(instances), old(created)), KeyTarget(key, old(currentModeKey)), old(currentModeKey))
      ensures fpsCounter == old(fpsCounter) && fpsLastTime == old(fpsLastTime)
    {
      if key == Key0 || key == Key1 || key == Key2 || key == Key3 {
        ModeKey(key, now);
      } else {
        ActionKey(key, now, caption, vqa);
      }
    }

    /** Every key but "0" to "3": the actions that leave the mode alone. */
    method ActionKey(key: Key, now: real, caption: CaptionOutcome, vqa: VqaOutcome)
      requires Valid() && !(key == Key0 || key == Key1 || key == Key2 || key == Key3)
      modifies this`overlays, this`spoken, this`logged
      ensures Valid()
      ensures overlays == old(overlays) + KeyOverlays(key, currentModeKey, now, caption, vqa)
      ensures hasAudioPlayer ==> spoken == old(spoken) + NonEmpty(KeySpeech(key, caption, vqa)) && logged == old(logged)
      ensures !hasAudioPlayer ==> logged == old(logged) + NonEmpty(KeySpeech(key, caption, vqa)) && spoken == old(spoken)
      ensures currentModeKey == old(currentModeKey) && previousModeKey == old(previousModeKey)
      ensures hooks == old(hooks) && instances == old(instances) && created == old(created)
      ensures fpsCounter == old(fpsCounter) && fpsLastTime == old(fpsLastTime)
    {
      match key
      case Key4 => HandleVqa(vqa, now);
      case Key5 => HandleCaption(caption, now);
      case KeyT =>
        AddOverlay("TTS Test", 2.0, now);
        SpeakMessages(["Audio check one two three."]);
      case KeyQuit =>
      case OtherKey =>
    }

    /** The start of `run`: the first mode is built and entered, and the
        greeting is shown for 3 seconds and spoken. The greeting names the
        sitting mode whichever mode the controller starts in. */
    method Start(now: real)
      requires Valid()
      modifies this`instances, this`created, this`hooks, this`overlays, this`spoken, this`logged
      ensures Running()
      ensures (instances, created) == Registered(old(instances), old(created), currentModeKey)
      ensures hooks == old(hooks) + EnterHooks(currentModeKey)
      ensures overlays == old(overlays) + [Overlay("System Ready. Sitting Mode.", now + 3.0)]
      ensures hasAudioPlayer ==> spoken == old(spoken) + ["BlindAid Online. Ready."] && logged == old(logged)
      ensures !hasAudioPlayer ==> logged == old(logged) + ["BlindAid Online. Ready."] && spoken == old(spoken)
    {
      var initial := GetMode(currentModeKey);
      hooks := hooks + EnterHooks(currentModeKey);
      AddOverlay("System Ready. Sitting Mode.", 3.0, now);
      SpeakMessages(["BlindAid Online. Ready."]);
      var greeting: seq<string> := ["BlindAid Online. Ready."];
      assert greeting[..0] == [];
    }

    /** People mode that reports itself finished (`peopleFinished`) hands
        back to the remembered mode before any frame is processed. The result
        is the mode that then runs. */
    method AutoReturn(now: real, peopleFinished: bool) returns (ranMode: string)
      requires Running()
      modifies this`instances, this`created, this`currentModeKey, this`hooks, this`overlays
      ensures Running()
      ensures ranMode == currentModeKey
      ensures old(currentModeKey) == "people" && peopleFinished ==> ranMode == old(previousModeKey)
      ensures !(old(currentModeKey) == "people" && peopleFinished) ==> ranMode == old(currentModeKey)
      ensures overlays == old(overlays) + SwitchOverlay(old(currentModeKey), old(previousModeKey), peopleFinished, now)
      ensures hooks == old(hooks) + SwitchHooks(ranMode, old(currentModeKey))
      ensures (instances, created) == SwitchRegistry((old(instances), old(created)), ranMode, old(currentModeKey))
    {
      var current := GetMode(currentModeKey);
      if currentModeKey == "people" && peopleFinished {
        SwitchMode(previousModeKey, now);
        current := GetMode(currentModeKey);
      }
      ranMode := currentModeKey;
    }

    /** The frame part of a pass: the mode's speech is handed on, the FPS
        counter advances, the overlays are pruned and the lines to draw are
        composed. The sitting mode has no `process_frame` and shows its hint. */
    method Render(now: real, ranMode: string, modeInfo: seq<string>, modeSpeech: seq<string>) returns (drawn: seq<string>)
      requires Valid()
      modifies this`spoken, this`logged, this`fpsCounter, this`fpsLastTime, this`overlays
      ensures Valid()
      ensures drawn == DrawnLines(ModeInfo(ranMode, modeInfo), Texts(Unexpired(old(overlays), now)))
      ensures overlays == Unexpired(old(overlays), now)
      ensures fpsCounter == NextFpsCounter(old(fpsCounter))
      ensures fpsLastTime == if old(fpsCounter) + 1 >= 20 then now else old(fpsLastTime)
      ensures hasAudioPlayer ==> spoken == old(spoken) + NonEmpty(ModeSpeech(ranMode, modeSpeech)) && logged == old(logged)
      ensures !hasAudioPlayer ==> logged == old(logged) + NonEmpty(ModeSpeech(ranMode, modeSpeech)) && spoken == old(spoken)
    {
      var info: seq<string>;
      var speech: seq<string>;
      if ranMode == "sitting" {
        info := ["Sitting Mode - Press 1-5 for features"];
        speech := [];
      } else {
        info := modeInfo;
        speech := modeSpeech;
      }
      SpeakMessages(speech);
      UpdateFps(now);
      var overlayTexts := ActiveOverlays(now);
      drawn := DrawnLines(info, overlayTexts);
    }

    /** One pass of the main loop of `run` at `now`: the automatic return,
        the running mode's frame (`modeInfo` and `modeSpeech` are what its
        `process_frame` gives), then the key. `quit` is the "q" key. */
    method Step(now: real, peopleFinished: bool, modeInfo: seq<string>, modeSpeech: seq<string>,
                key: Key, caption: CaptionOutcome, vqa: VqaOutcome)
      returns (ranMode: string, drawn: seq<string>, quit: bool)
      requires Running()
      modifies this`instances, this`created, this`currentModeKey, this`previousModeKey, this`hooks
      modifies this`overlays, this`spoken, this`logged, this`fpsCounter, this`fpsLastTime
      ensures Running()
      ensures old(currentModeKey) == "people" && peopleFinished ==> ranMode == old(previousModeKey)
      ensures !(old(currentModeKey) == "people" && peopleFinished) ==> ranMode == old(currentModeKey)
      ensures drawn == DrawnLines(ModeInfo(ranMode, modeInfo), Texts(Unexpired(
        old(overlays) + SwitchOverlay(old(currentModeKey), old(previousModeKey), peopleFinished, now), now)))
      ensures quit <==> key == KeyQuit
      ensures key == Key3 && ranMode != "people" ==> previousModeKey == ranMode && currentModeKey == "people"
      ensures !(key == Key3 && ranMode != "people") ==> previousModeKey == old(previousModeKey)
      ensures currentModeKey == KeyTarget(key, ranMode)
      ensures overlays ==
        Unexpired(old(overlays) + SwitchOverlay(old(currentModeKey), old(previousModeKey), peopleFinished, now), now)
        + KeyOverlays(key, ranMode, now, caption, vqa)
      ensures hasAudioPlayer ==>
        spoken == old(spoken) + NonEmpty(ModeSpeech(ranMode, modeSpeech)) + NonEmpty(KeySpeech(key, caption, vqa))
        && logged == old(logged)
      ensures !hasAudioPlayer ==>
        logged == old(logged) + NonEmpty(ModeSpeech(ranMode, modeSpeech)) + NonEmpty(KeySpeech(key, caption, vqa))
        && spoken == old(spoken)
      ensures fpsCounter == NextFpsCounter(old(fpsCounter))
      ensures fpsLastTime == if old(fpsCounter) + 1 >= 20 then now else old(fpsLastTime)
      ensures hooks == old(hooks) + SwitchHooks(ranMode, old(currentModeKey)) + SwitchHooks(KeyTarget(key, ranMode), ranMode)
      ensures (instances, created) == SwitchRegistry(
        SwitchRegistry((old(instances), old(created)), ranMode, old(currentModeKey)), KeyTarget(key, ranMode), ranMode)
    {
      ranMode, drawn := RunMode(now, peopleFinished, modeInfo, modeSpeech);
      quit := KeyPhase(key, now, caption, vqa);
    }

    /** The end of a pass: "q" leaves the loop before any key is handled;
        every other key goes to `HandleKey`. */
    method KeyPhase(key: Key, now: real, caption: CaptionOutcome, vqa: VqaOutcome) returns (quit: bool)
      requires Running()
      modifies this`instances, this`created, this`currentModeKey, this`previousModeKey, this`hooks
      modifies this`overlays, this`spoken, this`logged
      ensures Running()
      ensures quit <==> key == KeyQuit
      ensures key == Key3 && old(currentModeKey) != "people" ==>
        previousModeKey == old(currentModeKey) && currentModeKey == "people"
      ensures !(key == Key3 && old(currentModeKey) != "people") ==> previousModeKey == old(previousModeKey)
      ensures currentModeKey == KeyTarget(key, old(currentModeKey))
      ensures overlays == old(overlays) + KeyOverlays(key, old(currentModeKey), now, caption, vqa)
      ensures hasAudioPlayer ==> spoken == old(spoken) + NonEmpty(KeySpeech(key, caption, vqa)) && logged == old(logged)
      ensures !hasAudioPlayer ==> logged == old(logged) + NonEmpty(KeySpeech(key, caption, vqa)) && spoken == old(spoken)
      ensures hooks == old(hooks) + SwitchHooks(KeyTarget(key, old(currentModeKey)), old(currentModeKey))
      ensures (instances, created) ==
        SwitchRegistry((old(instances), old(created)), KeyTarget(key, old(currentModeKey)), old(currentModeKey))
      ensures fpsCounter == old(fpsCounter) && fpsLastTime == old(fpsLastTime)
    {
      quit := key == KeyQuit;
      if !quit {
        HandleKey(key, now, caption, vqa);
      } else {
        assert KeyOverlays(key, currentModeKey, now, caption, vqa) == [] && KeySpeech(key, caption, vqa) == [];
        assert SwitchHooks(currentModeKey, currentModeKey) == [];
        assert SwitchRegistry((instances, created), currentModeKey, currentModeKey) == (instances, created);
      }
    }

    /** A pass up to the key: the automatic return, then the frame of the
        mode that runs. */
    method RunMode(now: real, peopleFinished: bool, modeInfo: seq<string>, modeSpeech: seq<string>)
      returns (ranMode: string, drawn: seq<string>)
      requires Running()
      modifies this`instances, this`created, this`currentModeKey, this`hooks
      modifies this`overlays, this`spoken, this`logged, this`fpsCounter, this`fpsLastTime
      ensures Running()
      ensures ranMode == currentModeKey
      ensures old(currentModeKey) == "people" && peopleFinished ==> ranMode == old(previousModeKey)
      ensures !(old(currentModeKey) == "people" && peopleFinished) ==> ranMode == old(currentModeKey)
      ensures drawn == DrawnLines(ModeInfo(ranMode, modeInfo), Texts(overlays))
      ensures overlays ==
        Unexpired(old(overlays) + SwitchOverlay(old(currentModeKey), old(previousModeKey), peopleFinished, now), now)
      ensures hasAudioPlayer ==> spoken == old(spoken) + NonEmpty(ModeSpeech(ranMode, modeSpeech)) && logged == old(logged)
      ensures !hasAudioPlayer ==> logged == old(logged) + NonEmpty(ModeSpeech(ranMode, modeSpeech)) && spoken == old(spoken)
      ensures fpsCounter == NextFpsCounter(old(fpsCounter))
      ensures fpsLastTime == if old(fpsCounter) + 1 >= 20 then now else old(fpsLastTime)
      ensures hooks == old(hooks) + SwitchHooks(ranMode, old(currentModeKey))
      ensures (instances, created) == SwitchRegistry((old(instances), old(created)), ranMode, old(currentModeKey))
      ensures previousModeKey == old(previousModeKey)
    {
      ghost var untouched := (spoken, logged, fpsCounter, fpsLastTime);
      ranMode := AutoReturn(now, peopleFinished);
      assert (spoken, logged, fpsCounter, fpsLastTime) == untouched;
      drawn := Render(now, ranMode, modeInfo, modeSpeech);
    }
  }
}
