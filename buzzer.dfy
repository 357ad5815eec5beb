/** The on-board buzzer: a melody sequencer that, on every tick, turns the PWM output on
    at the current note's pitch or off for a pause, and moves on to the next note once
    the current one has sounded for longer than its duration. The PWM timer itself is
    abstracted to the command the sequencer gives it. */
module Buzzer {
  import opened Common

  datatype Semitone = C | Cs | D | Ds | E | F | Fs | G | Gs | A | As | B

  datatype Pitch = Pitch(semitone: Semitone, octave: uint8)

  /** A note sounds `pitch` (none for a pause) for `duration` milliseconds. */
  datatype Note = Note(pitch: Option<Pitch>, duration: uint32)

  /** `Note::note`. */
  function Tone(semitone: Semitone, octave: uint8, duration: uint32): Note {
    Note(Some(Pitch(semitone, octave)), duration)
  }

  /** `Note::pause`. */
  function Pause(duration: uint32): Note {
    Note(None, duration)
  }

  const STARTUP: seq<Note> := [
    Tone(C, 4, 150), Pause(10),
    Tone(E, 4, 150), Pause(10),
    Tone(G, 4, 150), Pause(10)
  ]

  const HWARMED: seq<Note> := [
    Tone(A, 3, 150), Pause(10),
    Tone(A, 3, 150), Pause(10),
    Tone(A, 3, 150), Pause(10)
  ]

  const ARMED: seq<Note> := [
    Tone(G, 4, 150), Pause(10),
    Tone(G, 4, 150), Pause(10),
    Tone(G, 4, 150), Pause(10)
  ]

  const LANDED: seq<Note> := [
    Tone(C, 4, 150 - 10), Pause(10),
    Tone(D, 4, 150 - 10), Pause(10),
    Tone(F, 4, 150 - 10), Pause(10),
    Tone(D, 4, 150 - 10), Pause(10),

    Tone(As, 4, 450 - 50), Pause(50),
    Tone(As, 4, 450 - 50), Pause(50),
    Tone(G, 4, 600 - 50), Pause(50),
    Pause(300),
    Tone(C, 4, 150 - 10), Pause(10),
    Tone(D, 4, 150 - 10), Pause(10),
    Tone(F, 4, 150 - 10), Pause(10),
    Tone(D, 4, 150 - 10), Pause(10),

    Tone(G, 4, 450 - 50), Pause(50),
    Tone(G, 4, 450 - 50), Pause(50),
    Tone(F, 4, 450 - 50), Pause(50),
    Tone(E, 4, 150 - 10), Pause(10),
    Tone(D, 4, 300 - 10), Pause(10),
    Tone(C, 4, 150 - 10), Pause(10),
    Tone(D, 4, 150 - 10), Pause(10),
    Tone(F, 4, 150 - 10), Pause(10),
    Tone(D, 4, 150 - 10), Pause(10),

    Tone(F, 4, 600 - 50), Pause(50),
    Tone(G, 4, 300 - 50), Pause(50),
    Tone(E, 4, 450 - 50), Pause(50),
    Tone(D, 4, 150 - 50), Pause(50),
    Tone(C, 4, 600 - 50), Pause(50),
    Tone(C, 4, 300 - 50), Pause(50),

    Tone(G, 4, 600 - 50), Pause(50),
    Tone(F, 4, 600 - 50), Pause(50)
  ]

  const RECOVERY_WARNING_TIME: uint32 := 750
  const RECOVERY: seq<Note> := [Tone(C, 5, RECOVERY_WARNING_TIME)]

  /** The melody played on entering each flight mode (`switch_mode`): none in Idle and
      Flight. */
  function MelodyFor(mode: FlightMode): (m: seq<Note>)
    ensures m == [] <==> mode == Idle || mode == Flight
    ensures mode == RecoveryDrogue || mode == RecoveryMain ==> m == RECOVERY
    ensures mode == HardwareArmed ==> m == HWARMED
    ensures mode == Armed ==> m == ARMED
    ensures mode == Landed ==> m == LANDED
  {
    match mode
    case HardwareArmed => HWARMED
    case Armed => ARMED
    case RecoveryDrogue => RECOVERY
    case RecoveryMain => RECOVERY
    case Landed => LANDED
    case _ => []
  }

  /** The lengths of the melodies, and the recovery warning as a single C5 lasting
      RECOVERY_WARNING_TIME. */
  lemma MelodyShapes()
    ensures |STARTUP| == 6 && |HWARMED| == 6 && |ARMED| == 6 && |LANDED| == 57
    ensures |RECOVERY| == 1 && RECOVERY[0].pitch == Some(Pitch(C, 5)) && RECOVERY[0].duration == 750
    ensures forall i :: 0 <= i < 6 ==> (STARTUP[i].pitch.None? <==> i % 2 == 1)
  {
  }

  /** What a tick asks of the PWM timer: run at the pitch of a note, or stop. */
  datatype PwmCommand = Enable(pitch: Pitch) | Disable

  /** The sequencer's state: melody, index of the current note, time the current note
      began, and whether the melody loops. */
  datatype Player = Player(melody: seq<Note>, index: nat, timeNoteChange: uint32, repeat: bool)
  {
    /** The index never runs past the melody, and a looping melody is never empty, so
        the note lookup of a tick is always in bounds. */
    predicate Valid() {
      index <= |melody| && (repeat ==> |melody| > 0)
    }

    predicate Finished() {
      index >= |melody|
    }
  }

  datatype TickResult = TickResult(player: Player, pwm: PwmCommand)

  /** The PWM command for a note: its pitch, or off for a pause. */
  function Sound(n: Note): PwmCommand {
    if n.pitch.Some? then Enable(n.pitch.value) else Disable
  }

  /** One `tick` as a function of the state before it. `time - time_note_change` is
      u32 arithmetic, wrapping as in a build without overflow checks. */
  function TickPlayer(p: Player, time: uint32): (r: TickResult)
    requires p.Valid()
    ensures r.player.Valid()
    ensures r.player.melody == p.melody && r.player.repeat == p.repeat
  {
    if p.Finished() && !p.repeat then TickResult(p, Disable)
    else
      var i := if p.Finished() then 0 else p.index;
      var note := p.melody[i];
      if WrappingSub32(time, p.timeNoteChange) > note.duration then
        TickResult(p.(index := i + 1, timeNoteChange := time), Sound(note))
      else
        TickResult(p.(index := i), Sound(note))
  }

  /** The state `switch_mode` leaves. */
  function SwitchPlayer(time: uint32, mode: FlightMode): (p: Player)
    ensures p.Valid()
    ensures p.melody == MelodyFor(mode)
    ensures p.repeat <==> mode == Landed
    ensures p.index == 0 && p.timeNoteChange == time
  {
    Player(MelodyFor(mode), 0, time, mode == Landed)
  }

  /** A finished melody that does not loop keeps the buzzer off and changes nothing. */
  lemma FinishedMelodyIsSilent(p: Player, time: uint32)
    requires p.Valid() && p.Finished() && !p.repeat
    ensures TickPlayer(p, time) == TickResult(p, Disable)
  {
  }

  /** A finished looping melody starts again from its first note. */
  lemma RepeatStartsOver(p: Player, time: uint32)
    requires p.Valid() && p.Finished() && p.repeat
    ensures TickPlayer(p, time).pwm == Sound(p.melody[0])
    ensures TickPlayer(p, time).player.index <= 1
  {
  }

  /** While a note plays, the output is a tone exactly when the note has a pitch. */
  lemma ToneIffPitch(p: Player, time: uint32)
    requires p.Valid() && !p.Finished()
    ensures TickPlayer(p, time).pwm.Enable? <==> p.melody[p.index].pitch.Some?
    ensures TickPlayer(p, time).pwm.Enable? ==> TickPlayer(p, time).pwm.pitch == p.melody[p.index].pitch.value
  {
  }

  /** Without wrap-around (`time` not before the note began), the sequencer moves to
      the next note exactly when more than the note's duration has elapsed, restarting
      the note clock at `time`; otherwise index and clock stay as they were. */
  lemma AdvanceAfterDuration(p: Player, time: uint32)
    requires p.Valid() && !p.Finished() && time >= p.timeNoteChange
    ensures var q := TickPlayer(p, time).player;
            if time - p.timeNoteChange > p.melody[p.index].duration
            then q.index == p.index + 1 && q.timeNoteChange == time
            else q.index == p.index && q.timeNoteChange == p.timeNoteChange
  {
  }

  /** Entering recovery sounds C5 on every tick for RECOVERY_WARNING_TIME ms; the first
      tick after that still sounds it and ends the melody, and from then on the buzzer
      stays off. */
  lemma RecoveryWarning(t0: uint32, t: uint32, later: uint32, mode: FlightMode)
    requires mode == RecoveryDrogue || mode == RecoveryMain
    requires t0 <= t
    ensures var p := SwitchPlayer(t0, mode);
            var r := TickPlayer(p, t);
            && r.pwm == Enable(Pitch(C, 5))
            && (t - t0 <= RECOVERY_WARNING_TIME ==> r.player == p)
            && (t - t0 > RECOVERY_WARNING_TIME ==>
                  r.player.Finished() && TickPlayer(r.player, later) == TickResult(r.player, Disable))
  {
  }

  /** The buzzer of the flight computer. */
  class Buzzer {
    var melody: seq<Note>
    var index: nat
    var timeNoteChange: uint32
    var repeat: bool

    function State(): Player
      reads this
    {
      Player(melody, index, timeNoteChange, repeat)
    }

    /** `Buzzer::init`: the start-up melody from its first note, once. */
    constructor Init()
      ensures State() == Player(STARTUP, 0, 0, false)
      ensures State().Valid()
    {
      melody := STARTUP;
      index := 0;
      timeNoteChange := 0;
      repeat := false;
    }

    /** `Buzzer::tick`. */
    method Tick(time: uint32) returns (pwm: PwmCommand)
      requires State().Valid()
      modifies this
      ensures TickResult(State(), pwm) == TickPlayer(old(State()), time)
      ensures State().Valid()
    {
      if index >= |melody| {
        if repeat {
          index := 0;
        } else {
          return Disable;
        }
      }

      var note := melody[index];
      if note.pitch.Some? {
        pwm := Enable(note.pitch.value);
      } else {
        pwm := Disable;
      }

      if WrappingSub32(time, timeNoteChange) > note.duration {
        index := index + 1;
        timeNoteChange := time;
      }
    }

    /** `Buzzer::switch_mode`: the mode's melody from its first note, looping only
        after landing. */
    method SwitchMode(time: uint32, mode: FlightMode)
      modifies this
      ensures State() == SwitchPlayer(time, mode)
      ensures State().Valid()
    {
      melody := MelodyFor(mode);
      index := 0;
      timeNoteChange := time;
      repeat := mode == Landed;
    }
  }
}
