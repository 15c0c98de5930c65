/** The alert-sound synthesizer: each sound recipe as the list of tones it
    starts. Every tone is one oscillator with a frequency, a wave shape, a
    start and a stop time, and the gain breakpoints scheduled on its gain
    node. Times are seconds relative to the audio clock when playback
    begins; all constants are exact decimals. */
module Tones {
  import opened Types

  datatype Wave = Sine | Square | Triangle

  /** The envelope shapes the shared oscillator helper knows. */
  datatype Envelope = Pluck | Beep | Swell

  /** How the gain reaches a breakpoint: set at once, or ramped from the
      previous breakpoint linearly or exponentially. */
  datatype Ramp = SetValue | LinearRamp | ExponentialRamp

  datatype GainPoint = GainPoint(ramp: Ramp, gain: real, at: real)

  datatype Tone = Tone(start: real, stop: real, frequency: real, wave: Wave, gain: seq<GainPoint>)

  /** Length of one alert, in seconds. */
  const TotalDuration: real := 10.0
  /** Period of the digital pattern. */
  const PatternLen: real := 1.0
  /** Length of one gentle swell. */
  const SwellLen: real := 3.3

  /** The gain breakpoints of the shared helper for one envelope shape. */
  function EnvelopePoints(t: real, dur: real, env: Envelope): seq<GainPoint>
  {
    match env
    case Pluck =>
      [GainPoint(SetValue, 0.0, t), GainPoint(LinearRamp, 0.5, t + 0.05),
       GainPoint(ExponentialRamp, 0.01, t + dur)]
    case Beep =>
      [GainPoint(SetValue, 0.0, t), GainPoint(LinearRamp, 0.5, t + 0.05),
       GainPoint(LinearRamp, 0.5, t + dur - 0.05), GainPoint(LinearRamp, 0.0, t + dur)]
    case Swell =>
      [GainPoint(SetValue, 0.0, t), GainPoint(LinearRamp, 0.5, t + dur / 2.0),
       GainPoint(LinearRamp, 0.0, t + dur)]
  }

  /** The shared helper: one oscillator started at `t` and stopped at
      `t + dur`. */
  function PlayOscillator(t: real, freq: real, wave: Wave, dur: real, env: Envelope): Tone
  {
    Tone(t, t + dur, freq, wave, EnvelopePoints(t, dur, env))
  }

  /** The chime's upper harmonic, built without the helper: it peaks at 0.3
      after 0.1 s and decays exponentially over 2 s. */
  function ChimeHarmonic(t: real): Tone
  {
    Tone(t, t + 2.0, 1046.5, Sine,
      [GainPoint(SetValue, 0.0, t), GainPoint(LinearRamp, 0.3, t + 0.1),
       GainPoint(ExponentialRamp, 0.01, t + 2.0)])
  }

  /** The gentle sound's harmony, built without the helper: a linear swell
      to 0.3 at half the swell length and back to 0. */
  function GentleHarmony(t: real): Tone
  {
    Tone(t, t + SwellLen, 329.63, Sine,
      [GainPoint(SetValue, 0.0, t), GainPoint(LinearRamp, 0.3, t + SwellLen / 2.0),
       GainPoint(LinearRamp, 0.0, t + SwellLen)])
  }

  /** One iteration of each recipe's loop. */
  function AlarmStep(i: nat): seq<Tone>
  {
    var t := i as real;
    [PlayOscillator(t, 880.0, Triangle, 0.2, Beep), PlayOscillator(t + 0.3, 880.0, Triangle, 0.2, Beep)]
  }

  function ChimeStep(i: nat): seq<Tone>
  {
    var t := i as real * 2.5;
    [PlayOscillator(t, 523.25, Sine, 2.0, Pluck), ChimeHarmonic(t)]
  }

  function DigitalStep(i: nat): seq<Tone>
  {
    var t := i as real * PatternLen;
    [PlayOscillator(t, 600.0, Square, 0.15, Beep),
     PlayOscillator(t + 0.2, 800.0, Square, 0.15, Beep),
     PlayOscillator(t + 0.4, 600.0, Square, 0.15, Beep)]
  }

  function GentleStep(i: nat): seq<Tone>
  {
    var t := i as real * SwellLen;
    [PlayOscillator(t, 220.0, Triangle, SwellLen, Swell), GentleHarmony(t)]
  }

  /** The tones of `for (i = 0; i < n; i++) body(i)`, in call order. */
  function Loops(n: nat, body: nat -> seq<Tone>): seq<Tone>
  {
    if n == 0 then [] else Loops(n - 1, body) + body(n - 1)
  }

  /** Number of digital pattern repetitions: `floor(10 / 1.0)`. */
  function DigitalLoops(): nat
  {
    var n := (TotalDuration / PatternLen).Floor;
    if n < 0 then 0 else n
  }

  /** The tones one playback of a sound starts. Any identifier other than
      `chime`, `digital` or `gentle` plays the alarm recipe. Every tone is
      well shaped and lies within the alert's 10 seconds. */
  function Synthesize(sound: string): (r: seq<Tone>)
    ensures forall tone :: tone in r ==> InAlert(tone)
  {
    if sound == "chime" then
      ChimeInAlert();
      Loops(4, ChimeStep)
    else if sound == "digital" then
      assert DigitalLoops() == 10 by {
        assert TotalDuration / PatternLen == 10.0;
      }
      DigitalInAlert();
      Loops(DigitalLoops(), DigitalStep)
    else if sound == "gentle" then
      GentleInAlert();
      Loops(3, GentleStep)
    else
      AlarmInAlert();
      Loops(10, AlarmStep)
  }

  // ---------------------------------------------------------------------
  // Properties

  /** Breakpoint times never go back. */
  predicate TimesOrdered(g: seq<GainPoint>)
  {
    forall i, j :: 0 <= i < j < |g| ==> g[i].at <= g[j].at
  }

  /** A tone that starts before it stops, whose gain is set to 0 at its
      start, whose breakpoints are in time order and lie within
      [start, stop], and whose last breakpoint is at its stop. */
  predicate WellShaped(t: Tone)
  {
    && t.start < t.stop
    && |t.gain| >= 2
    && t.gain[0] == GainPoint(SetValue, 0.0, t.start)
    && t.gain[|t.gain| - 1].at == t.stop
    && TimesOrdered(t.gain)
    && (forall i :: 0 <= i < |t.gain| ==> t.start <= t.gain[i].at <= t.stop)
  }

  /** The beep envelope: 0 at the start, 0.5 after 0.05 s, held until 0.05 s
      before the stop, 0 at the stop. */
  predicate BeepShaped(t: Tone)
  {
    t.gain == [GainPoint(SetValue, 0.0, t.start), GainPoint(LinearRamp, 0.5, t.start + 0.05),
               GainPoint(LinearRamp, 0.5, t.stop - 0.05), GainPoint(LinearRamp, 0.0, t.stop)]
  }

  /** The helper's tones are well shaped whenever the duration leaves room
      for the envelope's fixed attack (and release, for a beep). */
  lemma OscillatorWellShaped(t: real, freq: real, wave: Wave, dur: real, env: Envelope)
    requires dur >= 0.1
    ensures var tone := PlayOscillator(t, freq, wave, dur, env);
      && tone.start == t && tone.stop == t + dur && tone.frequency == freq && tone.wave == wave
      && WellShaped(tone)
    ensures env == Beep ==> BeepShaped(PlayOscillator(t, freq, wave, dur, env))
  {
  }

  /** Indexing into a loop: the `j`-th tone of iteration `i` sits at
      position `i * k + j` when every iteration starts `k` tones. */
  lemma {:induction false} LoopsAt(n: nat, k: nat, body: nat -> seq<Tone>, i: nat, j: nat)
    requires forall x :: 0 <= x < n ==> |body(x)| == k
    requires i < n && j < k
    ensures |Loops(n, body)| == n * k
    ensures i * k + j < n * k && Loops(n, body)[i * k + j] == body(i)[j]
  {
    LoopsLength(n, k, body);
    if i == n - 1 {
      assert Loops(n, body) == Loops(n - 1, body) + body(n - 1);
      assert |Loops(n - 1, body)| == (n - 1) * k;
    } else {
      LoopsAt(n - 1, k, body, i, j);
      assert (i + 1) * k <= (n - 1) * k by {
        MulMonotone(i + 1, n - 1, k);
      }
    }
  }

  lemma {:induction false} LoopsLength(n: nat, k: nat, body: nat -> seq<Tone>)
    requires forall x :: 0 <= x < n ==> |body(x)| == k
    ensures |Loops(n, body)| == n * k
  {
    if n > 0 {
      LoopsLength(n - 1, k, body);
    }
  }

  lemma MulMonotone(a: nat, b: nat, k: nat)
    requires a <= b
    ensures a * k <= b * k
  {
  }

  /** The alarm table: 20 triangle beeps at 880 Hz, 0.2 s each; beep `2i`
      starts at second `i` and beep `2i + 1` at `i + 0.3`. */
  lemma AlarmTable(sound: string, k: nat)
    requires sound !in {"chime", "digital", "gentle"}
    requires k < 20
    ensures |Synthesize(sound)| == 20
    ensures var tone := Synthesize(sound)[k];
      && tone.start == (k / 2) as real + (if k % 2 == 0 then 0.0 else 0.3)
      && tone.stop == tone.start + 0.2
      && tone.frequency == 880.0 && tone.wave == Triangle
      && BeepShaped(tone)
  {
    AlarmFallback(sound);
    AlarmAt(k);
  }

  /** Every identifier but the three named ones plays the alarm loop. */
  lemma AlarmFallback(sound: string)
    requires sound !in {"chime", "digital", "gentle"}
    ensures Synthesize(sound) == Loops(10, AlarmStep)
  {
    assert sound != "chime" && sound != "digital" && sound != "gentle";
  }

  lemma AlarmAt(k: nat)
    requires k < 20
    ensures |Loops(10, AlarmStep)| == 20
    ensures var tone := Loops(10, AlarmStep)[k];
      && tone.start == (k / 2) as real + (if k % 2 == 0 then 0.0 else 0.3)
      && tone.stop == tone.start + 0.2
      && tone.frequency == 880.0 && tone.wave == Triangle
      && BeepShaped(tone)
  {
    var i, j := k / 2, k % 2;
    LoopsAt(10, 2, AlarmStep, i, j);
    assert i * 2 + j == k;
    AlarmStepAt(i, j);
  }

  lemma AlarmStepAt(i: nat, j: nat)
    requires j < 2
    ensures var start := i as real + (if j == 0 then 0.0 else 0.3);
      AlarmStep(i)[j] == PlayOscillator(start, 880.0, Triangle, 0.2, Beep)
      && BeepShaped(AlarmStep(i)[j])
  {
    var start := i as real + (if j == 0 then 0.0 else 0.3);
  }

  /** The chime table: 4 pairs at `2.5 i` seconds, a 523.25 Hz pluck and
      its 1046.5 Hz harmonic, both sine and 2 s long. */
  lemma ChimeTable(k: nat)
    requires k < 8
    ensures |Synthesize(SoundName(Chime))| == 8
    ensures var tone := Synthesize(SoundName(Chime))[k];
      && tone.start == (k / 2) as real * 2.5
      && tone.stop == tone.start + 2.0
      && tone.wave == Sine
      && tone.frequency == (if k % 2 == 0 then 523.25 else 1046.5)
      && tone.gain[1] == GainPoint(LinearRamp, if k % 2 == 0 then 0.5 else 0.3,
                                   tone.start + (if k % 2 == 0 then 0.05 else 0.1))
      && tone.gain[|tone.gain| - 1] == GainPoint(ExponentialRamp, 0.01, tone.stop)
  {
    LoopsAt(4, 2, ChimeStep, k / 2, k % 2);
  }

  /** The digital table: 10 loops of three 0.15 s square beeps at
      600, 800, 600 Hz, 0.2 s apart, one loop per second. */
  lemma DigitalTable(k: nat)
    requires k < 30
    ensures |Synthesize(SoundName(Digital))| == 30
    ensures var tone := Synthesize(SoundName(Digital))[k];
      && tone.start == (k / 3) as real + 0.2 * (k % 3) as real
      && tone.stop == tone.start + 0.15
      && tone.frequency == (if k % 3 == 1 then 800.0 else 600.0)
      && tone.wave == Square
      && BeepShaped(tone)
  {
    assert DigitalLoops() == 10 by {
      assert TotalDuration / PatternLen == 10.0;
    }
    var i, j := k / 3, k % 3;
    LoopsAt(10, 3, DigitalStep, i, j);
    assert Synthesize("digital")[k] == DigitalStep(i)[j];
    DigitalStepAt(i, j);
  }

  lemma DigitalStepAt(i: nat, j: nat)
    requires j < 3
    ensures var start := i as real + 0.2 * j as real;
      DigitalStep(i)[j] == PlayOscillator(start, if j == 1 then 800.0 else 600.0, Square, 0.15, Beep)
      && BeepShaped(DigitalStep(i)[j])
  {
    var t := i as real * PatternLen;
    assert t == i as real;
    var start := i as real + 0.2 * j as real;
    var freq := if j == 1 then 800.0 else 600.0;
  }

  /** The gentle table: 3 pairs every 3.3 s, a 220 Hz triangle swell to 0.5
      and a 329.63 Hz sine harmony to 0.3, both peaking at half length. */
  lemma GentleTable(k: nat)
    requires k < 6
    ensures |Synthesize(SoundName(Gentle))| == 6
    ensures var tone := Synthesize(SoundName(Gentle))[k];
      && tone.start == (k / 2) as real * 3.3
      && tone.stop == tone.start + 3.3
      && tone.wave == (if k % 2 == 0 then Triangle else Sine)
      && tone.frequency == (if k % 2 == 0 then 220.0 else 329.63)
      && tone.gain == [GainPoint(SetValue, 0.0, tone.start),
                       GainPoint(LinearRamp, if k % 2 == 0 then 0.5 else 0.3, tone.start + 1.65),
                       GainPoint(LinearRamp, 0.0, tone.stop)]
  {
    assert Synthesize(SoundName(Gentle)) == Loops(3, GentleStep);
    GentleAt(k);
  }

  lemma GentleAt(k: nat)
    requires k < 6
    ensures |Loops(3, GentleStep)| == 6
    ensures var tone := Loops(3, GentleStep)[k];
      && tone.start == (k / 2) as real * 3.3
      && tone.stop == tone.start + 3.3
      && tone.wave == (if k % 2 == 0 then Triangle else Sine)
      && tone.frequency == (if k % 2 == 0 then 220.0 else 329.63)
      && tone.gain == [GainPoint(SetValue, 0.0, tone.start),
                       GainPoint(LinearRamp, if k % 2 == 0 then 0.5 else 0.3, tone.start + 1.65),
                       GainPoint(LinearRamp, 0.0, tone.stop)]
  {
    LoopsAt(3, 2, GentleStep, k / 2, k % 2);
  }

  /** Tone counts per sound: alarm 20, chime 8, digital 30, gentle 6; an
      identifier that names none of the four sounds falls back to the alarm
      recipe, and so do all but the chime, digital and gentle ones. */
  lemma SynthesizeCounts(sound: string)
    ensures |Synthesize(SoundName(Alarm))| == 20 && |Synthesize(SoundName(Chime))| == 8
    ensures |Synthesize(SoundName(Digital))| == 30 && |Synthesize(SoundName(Gentle))| == 6
    ensures SoundOfName(sound).None? ==> Synthesize(sound) == Synthesize(SoundName(Alarm))
    ensures sound !in {"chime", "digital", "gentle"} ==> Synthesize(sound) == Synthesize(SoundName(Alarm))
  {
    AlarmCount();
    ChimeCount();
    DigitalCount();
    GentleCount();
    if sound !in {"chime", "digital", "gentle"} {
      AlarmFallback(sound);
      AlarmFallback(SoundName(Alarm));
    }
  }

  lemma AlarmCount()
    ensures |Synthesize(SoundName(Alarm))| == 20
  {
    AlarmFallback(SoundName(Alarm));
    LoopsLength(10, 2, AlarmStep);
  }

  lemma ChimeCount()
    ensures |Synthesize(SoundName(Chime))| == 8
  {
    assert Synthesize(SoundName(Chime)) == Loops(4, ChimeStep);
    LoopsLength(4, 2, ChimeStep);
  }

  lemma DigitalCount()
    ensures |Synthesize(SoundName(Digital))| == 30
  {
    DigitalTable(0);
  }

  lemma GentleCount()
    ensures |Synthesize(SoundName(Gentle))| == 6
  {
    assert Synthesize(SoundName(Gentle)) == Loops(3, GentleStep);
    LoopsLength(3, 2, GentleStep);
  }

  /** A tone that is well shaped and lies within the 10-second alert. */
  predicate InAlert(t: Tone)
  {
    WellShaped(t) && 0.0 <= t.start && t.stop <= TotalDuration
  }

  lemma {:induction false} LoopsMember(n: nat, body: nat -> seq<Tone>, tone: Tone)
    requires tone in Loops(n, body)
    ensures exists i :: 0 <= i < n && tone in body(i)
  {
    if tone !in body(n - 1) {
      LoopsMember(n - 1, body, tone);
    }
  }

  lemma AlarmStepInAlert(i: nat)
    requires i < 10
    ensures forall tone :: tone in AlarmStep(i) ==> InAlert(tone)
  {
  }

  lemma ChimeStepInAlert(i: nat)
    requires i < 4
    ensures forall tone :: tone in ChimeStep(i) ==> InAlert(tone)
  {
    var t := i as real * 2.5;
    assert t <= 7.5;
    assert WellShaped(ChimeHarmonic(t));
  }

  lemma DigitalStepInAlert(i: nat)
    requires i < 10
    ensures forall tone :: tone in DigitalStep(i) ==> InAlert(tone)
  {
    var t := i as real * PatternLen;
    assert t == i as real;
  }

  lemma GentleStepInAlert(i: nat)
    requires i < 3
    ensures forall tone :: tone in GentleStep(i) ==> InAlert(tone)
  {
    var t := i as real * SwellLen;
    assert t <= 6.6;
    assert WellShaped(GentleHarmony(t));
  }

  lemma AlarmInAlert()
    ensures forall tone :: tone in Loops(10, AlarmStep) ==> InAlert(tone)
  {
    forall tone | tone in Loops(10, AlarmStep)
      ensures InAlert(tone)
    {
      LoopsMember(10, AlarmStep, tone);
      var i :| 0 <= i < 10 && tone in AlarmStep(i);
      AlarmStepInAlert(i);
    }
  }

  lemma ChimeInAlert()
    ensures forall tone :: tone in Loops(4, ChimeStep) ==> InAlert(tone)
  {
    forall tone | tone in Loops(4, ChimeStep)
      ensures InAlert(tone)
    {
      LoopsMember(4, ChimeStep, tone);
      var i :| 0 <= i < 4 && tone in ChimeStep(i);
      ChimeStepInAlert(i);
    }
  }

  lemma DigitalInAlert()
    ensures forall tone :: tone in Loops(10, DigitalStep) ==> InAlert(tone)
  {
    forall tone | tone in Loops(10, DigitalStep)
      ensures InAlert(tone)
    {
      LoopsMember(10, DigitalStep, tone);
      var i :| 0 <= i < 10 && tone in DigitalStep(i);
      DigitalStepInAlert(i);
    }
  }

  lemma GentleInAlert()
    ensures forall tone :: tone in Loops(3, GentleStep) ==> InAlert(tone)
  {
    forall tone | tone in Loops(3, GentleStep)
      ensures InAlert(tone)
    {
      LoopsMember(3, GentleStep, tone);
      var i :| 0 <= i < 3 && tone in GentleStep(i);
      GentleStepInAlert(i);
    }
  }
}
