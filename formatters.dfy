/**
 * The three output formatters, `TxtFormatter`, `VttFormatter` and
 * `SrtFormatter`: each gives a preamble and renders one transcript chunk with
 * its 1-based index. The formatter classes are stateless, so each becomes a
 * pair of functions, and the class chosen by name becomes the `Format` selector.
 */
module Formatters {
  import opened Wrappers
  import opened Decimal
  import opened Timestamps
  import opened Palette
  import opened Text

  /** One transcript chunk: `text`, `timestamp` (start, end) and the optional `speaker` key. */
  datatype Chunk = Chunk(text: string, start: Time, end: Time, speaker: Option<string>)

  /** The `--output_format` choices. */
  datatype Format = Txt | Vtt | Srt

  /** A failed dictionary lookup, carrying the missing key. */
  datatype KeyError = KeyError(key: string)

  // TxtFormatter

  function TxtPreamble(): string {
    ""
  }

  function TxtFormatChunk(chunk: Chunk, index: nat): string {
    chunk.text + "\n"
  }

  // VttFormatter

  function VttPreamble(): string {
    "WEBVTT\n\n"
  }

  /** The cue timing line `start --> end`. */
  function VttTiming(chunk: Chunk): string {
    VttTimestamp(chunk.start) + " --> " + VttTimestamp(chunk.end)
  }

  function VttFormatChunk(chunk: Chunk, index: nat): string {
    Digits(index) + "\n" + VttTiming(chunk) + "\n" + chunk.text + "\n\n"
  }

  // SrtFormatter

  function SrtPreamble(): string {
    ""
  }

  function SrtTiming(chunk: Chunk): string {
    SrtTimestamp(chunk.start) + " --> " + SrtTimestamp(chunk.end)
  }

  /** The caption line: the text inside a font tag giving the speaker's colour and name. */
  function FontTag(color: string, speaker: string, text: string): string {
    "<font color=\"" + color + "\" data-speaker=\"" + speaker + "\">" + text + "</font>"
  }

  /** Reading `chunk['speaker']` fails on a chunk without a speaker, and
      `colors[speaker]` on a speaker outside the palette. */
  function SrtFormatChunk(chunk: Chunk, index: nat): Result<string, KeyError> {
    match chunk.speaker
    case None => Err(KeyError("speaker"))
    case Some(speaker) =>
      match ColorOf(speaker)
      case None => Err(KeyError(speaker))
      case Some(color) =>
        Ok(Digits(index) + "\n" + SrtTiming(chunk) + "\n" + FontTag(color, speaker, chunk.text) + "\n\n")
  }

  // The formatter chosen by `--output_format`.

  function Preamble(format: Format): string {
    match format
    case Txt => TxtPreamble()
    case Vtt => VttPreamble()
    case Srt => SrtPreamble()
  }

  function FormatChunk(format: Format, chunk: Chunk, index: nat): Result<string, KeyError> {
    match format
    case Txt => Ok(TxtFormatChunk(chunk, index))
    case Vtt => Ok(VttFormatChunk(chunk, index))
    case Srt => SrtFormatChunk(chunk, index)
  }

  /** A formatter class as `convert` uses it: its preamble and its `format_chunk`. */
  datatype Formatter = Formatter(preamble: string, formatChunk: (Chunk, nat) -> Result<string, KeyError>)

  /** The class that `output_format` selects. */
  function FormatterOf(format: Format): Formatter {
    Formatter(Preamble(format), (chunk: Chunk, index: nat) => FormatChunk(format, chunk, index))
  }

  /** The lines of a cue block: index, timing, caption, then the blank line that ends it. */
  function CueLines(index: nat, timing: string, caption: string): seq<string> {
    [Digits(index), timing, caption, ""]
  }

  /** A cue block is its four lines, each ended by a newline. */
  lemma JoinCueLines(index: nat, timing: string, caption: string)
    ensures JoinLines(CueLines(index, timing, caption))
      == Digits(index) + "\n" + timing + "\n" + caption + "\n\n"
  {
    var lines := CueLines(index, timing, caption);
    assert JoinLines(lines[3..]) == "\n" by {
      assert JoinLines(lines[4..]) == "";
    }
    assert JoinLines(lines[2..]) == caption + "\n" + "\n";
    assert JoinLines(lines[1..]) == timing + "\n" + caption + "\n" + "\n";
  }

  lemma DigitsNoNewline(n: nat)
    ensures NoNewline(Digits(n))
  {
  }

  /** A rendered timestamp holds digits, colons and the separator, so never a newline. */
  lemma TimestampNoNewline(t: Time, sep: char)
    requires sep != '\n'
    ensures NoNewline(FormatSeconds(t, sep))
  {
    var c := ClockOf(t);
    var hh, mm, ss, ms := Padded(c.hours, 2), Padded(c.minutes, 2), Padded(c.seconds, 2), Padded(c.millis, 3);
    PaddedNoNewline(c.hours, 2);
    PaddedNoNewline(c.minutes, 2);
    PaddedNoNewline(c.seconds, 2);
    PaddedNoNewline(c.millis, 3);
    assert FormatSeconds(t, sep) == hh + ":" + mm + ":" + ss + [sep] + ms;
  }

  lemma PaddedNoNewline(n: nat, width: nat)
    ensures NoNewline(Padded(n, width))
  {
    var s := Padded(n, width);
    PaddedReadsBack(n, width);
    forall k | 0 <= k < |s| ensures s[k] != '\n' {
      assert IsDigit(s[k]);
    }
  }

  /** Txt: the preamble is empty and a chunk reads back as its text and nothing else,
      whatever its index, timestamps and speaker. */
  lemma TxtChunkLines(chunk: Chunk, index: nat)
    ensures TxtPreamble() == ""
    ensures TxtFormatChunk(chunk, index) == JoinLines([chunk.text])
    ensures NoNewline(chunk.text) ==> Split(TxtFormatChunk(chunk, index)) == [chunk.text, ""]
  {
    assert JoinLines([chunk.text]) == chunk.text + "\n" + JoinLines([]);
    if NoNewline(chunk.text) {
      SplitLine(chunk.text, "");
    }
  }

  /** Txt ignores everything but the text. */
  lemma TxtReadsOnlyText(a: Chunk, i: nat, b: Chunk, j: nat)
    requires a.text == b.text
    ensures TxtFormatChunk(a, i) == TxtFormatChunk(b, j)
  {
  }

  /** A cue block whose timing and caption hold no newline splits back into its lines. */
  lemma SplitCue(index: nat, timing: string, caption: string)
    requires NoNewline(timing) && NoNewline(caption)
    ensures AllNoNewline(CueLines(index, timing, caption))
    ensures Split(JoinLines(CueLines(index, timing, caption))) == CueLines(index, timing, caption) + [""]
  {
    var lines := CueLines(index, timing, caption);
    DigitsNoNewline(index);
    assert AllNoNewline(lines);
    SplitJoinLines(lines, "");
    assert JoinLines(lines) + "" == JoinLines(lines);
  }

  lemma TimingNoNewline(chunk: Chunk)
    ensures NoNewline(VttTiming(chunk)) && NoNewline(SrtTiming(chunk))
  {
    TimestampNoNewline(chunk.start, '.');
    TimestampNoNewline(chunk.end, '.');
    TimestampNoNewline(chunk.start, ',');
    TimestampNoNewline(chunk.end, ',');
  }

  /** Vtt: a chunk is the cue block `index`, `start --> end`, text, blank line. */
  lemma VttChunkLines(chunk: Chunk, index: nat)
    ensures VttFormatChunk(chunk, index) == JoinLines(CueLines(index, VttTiming(chunk), chunk.text))
    ensures NoNewline(chunk.text) ==>
      Split(VttFormatChunk(chunk, index)) == CueLines(index, VttTiming(chunk), chunk.text) + [""]
  {
    JoinCueLines(index, VttTiming(chunk), chunk.text);
    if NoNewline(chunk.text) {
      TimingNoNewline(chunk);
      SplitCue(index, VttTiming(chunk), chunk.text);
    }
  }

  /** Vtt never reads the speaker. */
  lemma VttIgnoresSpeaker(chunk: Chunk, index: nat, speaker: Option<string>)
    ensures VttFormatChunk(chunk.(speaker := speaker), index) == VttFormatChunk(chunk, index)
  {
  }

  /** Srt fails exactly when the chunk has no speaker or its speaker is not
      `SPEAKER_00` to `SPEAKER_64`, with the missing key as the error. */
  lemma SrtChunkFails(chunk: Chunk, index: nat)
    ensures SrtFormatChunk(chunk, index).Ok? <==>
      chunk.speaker.Some? && IsPaletteKey(chunk.speaker.value)
    ensures chunk.speaker.None? ==> SrtFormatChunk(chunk, index) == Err(KeyError("speaker"))
    ensures chunk.speaker.Some? && SrtFormatChunk(chunk, index).Err? ==>
      SrtFormatChunk(chunk, index) == Err(KeyError(chunk.speaker.value))
  {
    if chunk.speaker.Some? {
      ColorOfSpeaker(chunk.speaker.value);
    }
  }

  /** Srt: a chunk whose speaker has colour `color` is the cue block index, timing with
      comma separators, the text in a font tag giving the colour and speaker, blank line. */
  lemma SrtChunkCue(chunk: Chunk, index: nat, color: string)
    requires chunk.speaker.Some? && ColorOf(chunk.speaker.value) == Some(color)
    ensures SrtFormatChunk(chunk, index)
      == Ok(JoinLines(CueLines(index, SrtTiming(chunk), FontTag(color, chunk.speaker.value, chunk.text))))
    ensures NoNewline(chunk.text) ==>
      AllNoNewline(CueLines(index, SrtTiming(chunk), FontTag(color, chunk.speaker.value, chunk.text)))
  {
    var speaker := chunk.speaker.value;
    var caption := FontTag(color, speaker, chunk.text);
    JoinCueLines(index, SrtTiming(chunk), caption);
    if NoNewline(chunk.text) {
      ColorOfSpeaker(speaker);
      var i :| 0 <= i < 65 && speaker == SpeakerLabel(i);
      TimingNoNewline(chunk);
      ColorsAreHex(speaker);
      LabelNoNewline(i);
      CaptionNoNewline(color, speaker, chunk.text);
      SplitCue(index, SrtTiming(chunk), caption);
    }
  }

  /** Srt: speaker i's cue carries the i-th palette colour. */
  lemma SrtChunkLines(chunk: Chunk, index: nat, i: nat)
    requires i < 65 && chunk.speaker == Some(SpeakerLabel(i))
    ensures SrtFormatChunk(chunk, index)
      == Ok(JoinLines(CueLines(index, SrtTiming(chunk), FontTag(Hues[i], SpeakerLabel(i), chunk.text))))
    ensures NoNewline(chunk.text) ==>
      Split(SrtFormatChunk(chunk, index).value)
        == CueLines(index, SrtTiming(chunk), FontTag(Hues[i], SpeakerLabel(i), chunk.text)) + [""]
  {
    ColorOfLabel(i);
    SrtChunkCue(chunk, index, Hues[i]);
    if NoNewline(chunk.text) {
      TimingNoNewline(chunk);
      SrtCaptionNoNewline(chunk, i);
      SplitCue(index, SrtTiming(chunk), FontTag(Hues[i], SpeakerLabel(i), chunk.text));
    }
  }

  lemma SrtCaptionNoNewline(chunk: Chunk, i: nat)
    requires i < 65 && NoNewline(chunk.text)
    ensures NoNewline(FontTag(Hues[i], SpeakerLabel(i), chunk.text))
  {
    ColorOfLabel(i);
    ColorsAreHex(SpeakerLabel(i));
    LabelNoNewline(i);
    CaptionNoNewline(Hues[i], SpeakerLabel(i), chunk.text);
  }

  lemma CaptionNoNewline(color: string, speaker: string, text: string)
    requires IsHexColor(color) && NoNewline(speaker) && NoNewline(text)
    ensures NoNewline(FontTag(color, speaker, text))
  {
    assert NoNewline(color) by {
      assert forall k :: 0 <= k < |color| ==> color[k] == '#' || IsHexDigit(color[k]);
    }
  }

  lemma LabelNoNewline(i: nat)
    ensures NoNewline(SpeakerLabel(i))
  {
    PaddedReadsBack(i, 2);
  }
}
