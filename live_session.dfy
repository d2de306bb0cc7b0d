/** The message handler of the live translation session
    (`startLiveSession` in services/geminiService.ts): each server message
    may carry an input transcript, an output transcript and a part of
    translated audio. Transcripts are passed on in that order; audio is
    decoded and scheduled right after the audio already scheduled, so that
    the buffers play back to back. The audio devices, the socket and the
    capture callback's timing are outside the model: the output clock's
    current time is a parameter of each message. */
module LiveSession {
  import opened Wrappers
  import opened Pcm

  datatype Role = Input | Output

  /** The parts of a server message the handler reads: the transcript texts
      and the inline audio data of the first part of the model's turn. */
  datatype ServerMessage = ServerMessage(inputText: Option<string>, outputText: Option<string>, audioData: Option<string>)

  /** One call of the `onTranscript` callback. */
  datatype Transcript = Transcript(text: string, role: Role)

  /** One buffer started on the output: when it starts and how long it
      plays. */
  datatype Playback = Playback(start: real, duration: real, samples: seq<int16>)

  /** The output context's sample rate. */
  const OutputSampleRate: real := 24000.0

  predicate Present(text: Option<string>) {
    text.Some? && text.value != ""
  }

  /** The transcript callbacks a message causes, in order. */
  function TranscriptEvents(msg: ServerMessage): (r: seq<Transcript>)
    ensures |r| <= 2
    ensures forall i :: 0 <= i < |r| ==> r[i].text != ""
    ensures forall i, j :: 0 <= i < j < |r| ==> r[i].role == Input && r[j].role == Output
    ensures Present(msg.inputText) <==> Transcript(msg.inputText.GetOr(""), Input) in r
    ensures Present(msg.outputText) <==> Transcript(msg.outputText.GetOr(""), Output) in r
  {
    (if Present(msg.inputText) then [Transcript(msg.inputText.value, Input)] else []) +
    (if Present(msg.outputText) then [Transcript(msg.outputText.value, Output)] else [])
  }

  /** The samples of a message's audio: `None` when there is no audio text,
      when decoding throws (invalid base 64, odd byte count), or when there
      is not a single sample, for which the context cannot create a buffer. */
  function AudioSamples(msg: ServerMessage): (r: Option<seq<int16>>)
    ensures r.Some? ==> |r.value| > 0
  {
    if !Present(msg.audioData) then None
    else match PlaybackSamples(msg.audioData.value)
      case None => None
      case Some(samples) => if |samples| == 0 then None else Some(samples)
  }

  /** The playing time of a buffer, `buffer.duration`. */
  function Duration(samples: seq<int16>): (d: real)
    ensures d >= 0.0
  {
    |samples| as real / OutputSampleRate
  }

  function Max(a: real, b: real): (m: real)
    ensures m >= a && m >= b && (m == a || m == b)
  {
    if a >= b then a else b
  }

  function End(p: Playback): real {
    p.start + p.duration
  }

  /** Every buffer starts no earlier than the previous one ends. */
  predicate Gapless(played: seq<Playback>) {
    forall i :: 0 <= i < |played| - 1 ==> End(played[i]) <= played[i + 1].start
  }

  class Session {
    /** The closure variable `nextStartTime`: when the next buffer may start. */
    var nextStartTime: real
    /** The transcript callbacks made so far, in order. */
    var transcripts: seq<Transcript>
    /** The buffers started so far, in order. */
    var played: seq<Playback>

    ghost predicate Valid()
      reads this
    {
      nextStartTime >= 0.0 &&
      (forall i :: 0 <= i < |played| ==> played[i].start >= 0.0 && played[i].duration >= 0.0) &&
      Gapless(played) &&
      (|played| > 0 ==> End(played[|played| - 1]) <= nextStartTime)
    }

    /** A new session: the cursor starts at zero. */
    constructor()
      ensures Valid()
      ensures nextStartTime == 0.0 && transcripts == [] && played == []
    {
      nextStartTime := 0.0;
      transcripts := [];
      played := [];
    }

    /** `onmessage`: the transcripts first, input before output; then, when
        the audio decodes, a buffer that starts at the later of the clock
        and the cursor, and the cursor moves to its end. */
    method OnMessage(msg: ServerMessage, now: real)
      requires Valid() && now >= 0.0
      modifies this
      ensures Valid()
      ensures transcripts == old(transcripts) + TranscriptEvents(msg)
      ensures nextStartTime >= old(nextStartTime)
      ensures AudioSamples(msg).None? ==> played == old(played) && nextStartTime == old(nextStartTime)
      ensures AudioSamples(msg).Some? ==>
        var start := Max(now, old(nextStartTime));
        played == old(played) + [Playback(start, Duration(AudioSamples(msg).value), AudioSamples(msg).value)] &&
        nextStartTime == start + Duration(AudioSamples(msg).value)
    {
      RecordTranscripts(msg);
      if Present(msg.audioData) {
        var samples := DecodePlayback(msg.audioData.value);
        assert samples == PlaybackSamples(msg.audioData.value);
        if samples.Some? && |samples.value| > 0 {
          assert AudioSamples(msg) == samples;
          Schedule(samples.value, now);
        }
      }
    }

    /** The transcription parts of a message, input before output. */
    method RecordTranscripts(msg: ServerMessage)
      requires Valid()
      modifies this
      ensures Valid()
      ensures transcripts == old(transcripts) + TranscriptEvents(msg)
      ensures played == old(played) && nextStartTime == old(nextStartTime)
    {
      ghost var before := transcripts;
      ghost var inputPart := if Present(msg.inputText) then [Transcript(msg.inputText.value, Input)] else [];
      ghost var outputPart := if Present(msg.outputText) then [Transcript(msg.outputText.value, Output)] else [];
      if Present(msg.inputText) {
        transcripts := transcripts + [Transcript(msg.inputText.value, Input)];
      }
      assert transcripts == before + inputPart;
      if Present(msg.outputText) {
        transcripts := transcripts + [Transcript(msg.outputText.value, Output)];
      }
      assert transcripts == before + inputPart + outputPart;
    }

    /** Starting one decoded buffer: at the later of the clock and the
        cursor, which then moves to the buffer's end. */
    method Schedule(buffer: seq<int16>, now: real)
      requires Valid() && now >= 0.0
      modifies this
      ensures Valid()
      ensures transcripts == old(transcripts)
      ensures played == old(played) + [Playback(Max(now, old(nextStartTime)), Duration(buffer), buffer)]
      ensures nextStartTime == Max(now, old(nextStartTime)) + Duration(buffer)
    {
      var startTime := Max(now, nextStartTime);
      var p := Playback(startTime, Duration(buffer), buffer);
      GaplessAppend(played, p, nextStartTime);
      played := played + [p];
      nextStartTime := startTime + Duration(buffer);
    }
  }

  /** Appending a buffer that starts at or after the cursor keeps the
      playback gapless. */
  lemma GaplessAppend(played: seq<Playback>, p: Playback, cursor: real)
    requires Gapless(played) && (|played| > 0 ==> End(played[|played| - 1]) <= cursor) && p.start >= cursor
    ensures Gapless(played + [p])
  {
    var q := played + [p];
    forall i | 0 <= i < |q| - 1 ensures End(q[i]) <= q[i + 1].start {
      if i < |played| - 1 {
        assert q[i] == played[i] && q[i + 1] == played[i + 1];
      } else {
        assert q[i] == played[|played| - 1] && q[i + 1] == p;
      }
    }
  }

  /** A message arriving at time `now` whose audio plays for `duration`. */
  datatype Arrival = Arrival(now: real, duration: real)

  /** The start and end times of the buffers of a run of messages, from a
      cursor at `next`. */
  function Plan(arrivals: seq<Arrival>, next: real): (r: seq<(real, real)>)
    ensures |r| == |arrivals|
    decreases |arrivals|
  {
    if |arrivals| == 0 then []
    else
      var start := Max(arrivals[0].now, next);
      [(start, start + arrivals[0].duration)] + Plan(arrivals[1..], start + arrivals[0].duration)
  }

  /** From the initial cursor, every buffer starts no earlier than its
      message arrived and no earlier than the previous buffer ends, and
      plays for its own duration. */
  lemma {:induction false} PlanIsGapless(arrivals: seq<Arrival>, next: real)
    requires forall i :: 0 <= i < |arrivals| ==> arrivals[i].duration >= 0.0
    ensures var r := Plan(arrivals, next);
      (forall i :: 0 <= i < |r| ==> r[i].0 >= arrivals[i].now && r[i].0 >= next && r[i].1 == r[i].0 + arrivals[i].duration) &&
      (forall i :: 0 <= i < |r| - 1 ==> r[i].1 <= r[i + 1].0)
    decreases |arrivals|
  {
    if |arrivals| > 0 {
      var start := Max(arrivals[0].now, next);
      var rest := arrivals[1..];
      var tail := Plan(rest, start + arrivals[0].duration);
      PlanIsGapless(rest, start + arrivals[0].duration);
      var r := Plan(arrivals, next);
      assert r == [(start, start + arrivals[0].duration)] + tail;
      forall i | 1 <= i < |r| ensures r[i] == tail[i - 1] && arrivals[i] == rest[i - 1] {}
    }
  }
}
