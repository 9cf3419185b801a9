# Transcript rendering of `convert_output.py`

This project models the rendering layer of `convert_output.py`. The layer turns
an ordered list of transcript chunks into one of three outputs:

- **Txt**: plain text, each chunk's text followed by a newline. That is one line per chunk when no
  text holds a newline.
- **Vtt**: WebVTT. The `WEBVTT` header and a blank line come first, then one cue
  block per chunk. A cue block is the cue number, the line `start --> end`,
  the text and a blank line.
- **Srt**: SubRip. Each cue block has the same shape, with a comma before the
  milliseconds. The text is wrapped in
  `<font color="C" data-speaker="S">…</font>`, where C is the colour that a fixed
  65-entry palette gives speaker S.

The modules follow the source:

- `Timestamps`: `format_seconds`. It decomposes whole seconds into hours,
  minutes and seconds, then zero-pads the fields.
- `Decimal`: Python's `{n:02d}` / `{n:03d}` rendering, and reading digits back.
- `Palette`: the `colors` dictionary of `SrtFormatter.format_chunk`.
- `Formatters`: the three formatter classes, the `Format` selector (the
  dictionary that picks a class by `output_format`) and the `Formatter` value a
  class becomes.
- `Conversion`: the loop of `convert`. It is the method `Convert`, proved
  against the function `Render`.
- `Text`: joining lines with newlines and splitting text back at newlines.
  The document lemmas use it to state the output layout line by line.
- `Wrappers`: `Option` and `Result`.

Failures are values:

- A chunk with no `speaker` key fails with `KeyError("speaker")` in Srt.
- A speaker outside the palette fails with `KeyError(<speaker>)`.
- The conversion stops at the first failing chunk and reports its error.

Time offsets are given as whole seconds plus milliseconds.

## Model

| member | source | states |
|---|---|---|
| Conversion.Render | convert_output.py:144-151 | The conversion as a value: the preamble followed by every entry, or the first failing chunk's KeyError. It has no contract of its own; `Convert` is proved equal to it, and `RenderFails`, `RenderSucceeds` and `EntriesAt` state its behaviour. |
| Formatters.TxtPreamble | convert_output.py:8-9 | The empty Txt preamble. `TxtChunkLines` states it. |
| Formatters.TxtFormatChunk | convert_output.py:12-14 | The Txt entry. It has no contract of its own; `TxtChunkLines` and `TxtReadsOnlyText` state it. |
| Formatters.SrtPreamble | convert_output.py:19-20 | The empty Srt preamble. `SrtDocument` states the Srt output with no header lines. |
| Formatters.SrtFormatChunk | convert_output.py:34-107 | The Srt entry, or the KeyError of `chunk['speaker']` or `colors[speaker]`. It has no contract of its own; `SrtChunkFails`, `SrtChunkCue` and `SrtChunkLines` state it. |
| Formatters.VttPreamble | convert_output.py:112-113 | The preamble `WEBVTT\n\n`. `VttDocument` states it as the lines `WEBVTT` and blank. |
| Formatters.VttFormatChunk | convert_output.py:127-131 | The Vtt entry. It has no contract of its own; `VttChunkLines` and `VttIgnoresSpeaker` state it. |
| Formatters.FormatterOf | convert_output.py:138-142 | The formatter class that the format name selects, as a preamble and an entry function. The `Txt`/`Vtt`/`Srt` document lemmas state its three cases. |
| Timestamps.FormatSeconds | convert_output.py:27-31 | `format_seconds` once the seconds are truncated, with the separator as a parameter. It has no contract of its own; `FormatLayout`, `RoundTrip` and `TimestampNoNewline` state it. |
| Timestamps.SrtTimestamp | convert_output.py:23-31 | `SrtFormatter.format_seconds`, with a comma separator. `SeparatorOnlyDifference` and the examples state it. |
| Timestamps.VttTimestamp | convert_output.py:116-124 | `VttFormatter.format_seconds`, with a full-stop separator. `SeparatorOnlyDifference` and the examples state it. |
| Palette.ColorOf | convert_output.py:37-107 | `colors[speaker]` in the `Colors` dictionary, with a missing key as no colour. It has no contract of its own; `ColorOfIsDictLookup`, `ColorOfSpeaker` and `ColorsAreHex` state it. |
| Decimal.Padded | convert_output.py:31 | `{n:0Wd}`. It has no contract of its own; `PaddedReadsBack` and `PaddedWidth` state it. |
| Decimal.Digits | convert_output.py:107 | `str(n)`, as `{index}` writes the cue number: at least one digit, with no leading zero when n > 0. `ValueOfDigits` and `DigitsLength` state the rest. |
| Decimal.ValueOfDigits | convert_output.py:107 | Reading `str(n)` back as digits gives n. |
| Conversion.Convert | convert_output.py:144-151 | The loop's result is `Render` of the chunks whether or not `verbose` is set. The entries printed under `verbose` are exactly the appended entries, in order. A failing chunk ends the loop with that chunk's KeyError. |
| Conversion.FirstFailure | convert_output.py:145-146 | The position of the first chunk whose `format_chunk` fails, or the chunk count if none fails. Every chunk before it renders. |
| Conversion.RenderFails | convert_output.py:144-151 | Conversion succeeds iff every chunk's entry succeeds. On failure the error is the first failing chunk's, and every earlier chunk rendered. |
| Conversion.RenderSucceeds | convert_output.py:144-151 | On success the output is the preamble followed by `format_chunk(chunks[k], k + 1)` for every k, in input order. Indices are 1-based and contiguous. |
| Conversion.EntriesAt | convert_output.py:145-151 | The k-th piece appended to the buffer is chunk k's entry, numbered k + 1. |
| Conversion.RenderSingle | convert_output.py:144-151 | One chunk renders as the preamble followed by its entry numbered 1. |
| Conversion.DocumentLines | convert_output.py:144-151 | If the preamble is the lines `header` and each entry is a block of lines, the output is all those lines joined. When no line holds a newline, splitting the output at newlines gives the lines back, followed by the empty piece after the final newline. |
| Conversion.TxtAndVttNeverFail | convert_output.py:6-131 | Txt and Vtt conversions always succeed, since they read no key that can be missing. |
| Conversion.SrtRenderFails | convert_output.py:34-107 | Srt succeeds iff every chunk has a speaker among `SPEAKER_00`..`SPEAKER_64`. Otherwise it fails with the missing key (`speaker`, or the unknown speaker) of the first chunk outside the palette. |
| Conversion.TxtDocument | convert_output.py:6-14 | The Txt output is the texts joined with newlines. When no text holds a newline, it splits at newlines into the texts, followed by the empty piece after the final newline. |
| Conversion.VttDocument | convert_output.py:110-131 | The Vtt output is the lines `WEBVTT`, blank, then each chunk's four-line cue block. When no text holds a newline, it splits at newlines into those lines, followed by the empty piece after the final newline. |
| Conversion.VttCueAt | convert_output.py:127-131 | Lines 4k to 4k+3 after the Vtt header are chunk k's number k + 1, its `start --> end` line, its text and a blank line. |
| Conversion.SrtDocument | convert_output.py:34-107 | When every speaker has a palette colour, the Srt output is each chunk's cue block with its text in the font tag for that colour and speaker. When no text holds a newline, the output splits at newlines into those lines, followed by the empty piece after the final newline. |
| Conversion.SrtCueAt | convert_output.py:105-107 | Lines 4k to 4k+3 of the Srt output are chunk k's number, comma-separated timing, font-tagged caption and blank line. |
| Conversion.VttExample | convert_output.py:110-131 | A chunk "Hello" from 0 s to 1.5 s renders as `WEBVTT`, blank, `1`, `00:00:00.000 --> 00:00:01.500`, `Hello`, blank. |
| Conversion.SrtExample | convert_output.py:34-107 | A chunk by `SPEAKER_00` renders as cue 1 with the caption in a font tag of colour `#ff00ff`. |
| Conversion.TxtExample | convert_output.py:12-14 | A chunk "Hello" renders as `Hello\n` in Txt. |
| Conversion.SrtUnknownSpeakerExample | convert_output.py:107 | Srt on speaker `SPEAKER_99` fails with `KeyError("SPEAKER_99")`. |
| Conversion.SrtNoSpeakerExample | convert_output.py:36 | Srt on a chunk without a speaker fails with `KeyError("speaker")`. |
| Formatters.TxtChunkLines | convert_output.py:6-14 | The Txt preamble is empty, and a chunk is its text followed by exactly one newline, for every text. When the text holds no newline, the entry splits at newlines into the text, followed by the empty piece after the final newline. |
| Formatters.TxtReadsOnlyText | convert_output.py:12-14 | Two chunks with the same text render the same in Txt, whatever their indices, times and speakers. |
| Formatters.VttChunkLines | convert_output.py:127-131 | A Vtt chunk is the lines index, `start --> end` and text, then a blank line. With a single-line text it splits at newlines into those lines, followed by the empty piece after the final newline. |
| Formatters.VttIgnoresSpeaker | convert_output.py:127-131 | The Vtt entry does not depend on the speaker. |
| Formatters.SrtChunkFails | convert_output.py:34-107 | An Srt chunk renders iff it has a speaker among `SPEAKER_00`..`SPEAKER_64`. A missing speaker gives `KeyError("speaker")`; an unknown one gives `KeyError(speaker)`. |
| Formatters.SrtChunkCue | convert_output.py:105-107 | An Srt chunk whose speaker has colour C is the cue block index, comma timing line, `<font color="C" data-speaker="S">text</font>`, blank line. With a single-line text, no line of that block holds a newline. |
| Formatters.SrtChunkLines | convert_output.py:34-107 | Speaker `SPEAKER_<i:02d>` gets the i-th palette colour in its cue. When the text holds no newline, the cue splits at newlines into its four lines, followed by the empty piece after the final newline. |
| Formatters.JoinCueLines | convert_output.py:131 | The cue f-string is its four lines, each ended by a newline. |
| Formatters.TimestampNoNewline | convert_output.py:23-31 | A rendered timestamp never contains a newline. |
| Timestamps.ClockDecomposes | convert_output.py:27-29 | `hours*3600 + minutes*60 + seconds` equals the whole seconds, with minutes and seconds below 60 and hours uncapped. |
| Timestamps.ClockUnique | convert_output.py:27-29 | That decomposition is the only one with minutes and seconds below 60. |
| Timestamps.FormatLayout | convert_output.py:31 | For milliseconds below 1000, the timestamp is `H:MM:SS<sep>mmm` with every field in digits and exactly two minute digits, two second digits and three millisecond digits. The hour field is the hours padded to two digits, and it is two digits exactly when hours < 100. |
| Timestamps.RoundTrip | convert_output.py:31 | For milliseconds below 1000, splitting the timestamp at the colons and the separator and reading the digits gives back hours, minutes, seconds and milliseconds, and hence the time offset. |
| Timestamps.SeparatorOnlyDifference | convert_output.py:23-124 | For milliseconds below 1000, the Srt and Vtt timestamps of one offset have the same length and agree everywhere except the separator, `,` versus `.`. |
| Timestamps.ZeroExample | convert_output.py:31 | Offset 0 renders as `00:00:00,000` in Srt and `00:00:00.000` in Vtt. |
| Timestamps.HourExample | convert_output.py:27-31 | 3725 s and 400 ms render as `01:02:05,400`. |
| Timestamps.HalfSecondExample | convert_output.py:116-124 | 1.5 s renders as `00:00:01,500` and `00:00:01.500`. |
| Timestamps.LastMillisecondExample | convert_output.py:124 | 1 s and 999 ms render as `00:00:01.999`. |
| Timestamps.HundredHoursExample | convert_output.py:27-31 | 100 hours renders with a three-digit hour field, `100:00:00,000`. |
| Decimal.PaddedReadsBack | convert_output.py:31 | `{n:0Wd}` is all digits, at least W long, and reads back as n. |
| Decimal.PaddedWidth | convert_output.py:31 | For W ≥ 1, `{n:0Wd}` is exactly W characters iff n < 10^W. |
| Decimal.DigitsLength | convert_output.py:31 | For k ≥ 1, `str(n)` fits in k characters iff n < 10^k. |
| Palette.ColorOfIsDictLookup | convert_output.py:37-103 | The colour search agrees with the lookup `colors[speaker]` in the dictionary the display builds. |
| Palette.TableKeys | convert_output.py:37-103 | The first n entries of the dictionary display have exactly the keys of speakers 0..n-1. |
| Palette.TableValue | convert_output.py:37-103 | Speaker i's entry keeps the i-th colour, because no later key overwrites it. |
| Palette.ColorOfSpeaker | convert_output.py:37-103 | The palette's domain is exactly `SPEAKER_00`..`SPEAKER_64`, and speaker i maps to the i-th colour. |
| Palette.ColorOfLabel | convert_output.py:37-103 | `SPEAKER_<i:02d>` for i < 65 maps to the i-th colour. |
| Palette.NoColorBeyondPalette | convert_output.py:37-103 | `SPEAKER_<i:02d>` for i ≥ 65 has no colour. |
| Palette.PaletteSize | convert_output.py:37-103 | The dictionary has 65 entries. |
| Palette.ColorsAreHex | convert_output.py:37-103 | Every palette colour is a `#rrggbb` string of lower-case hexadecimal digits. |
| Palette.LabelInjective | convert_output.py:37-103 | Distinct speaker numbers have distinct keys. |
| Palette.SpeakerNumberOfLabel | convert_output.py:37-103 | The number of `SPEAKER_<i:02d>` reads back as i. |
| Palette.ExampleFirst | convert_output.py:38 | `SPEAKER_00` maps to `#ff00ff`. |
| Palette.ExampleLast | convert_output.py:102 | `SPEAKER_64` maps to `#ff0018`. |
| Palette.ExampleUnknown | convert_output.py:37-103 | `SPEAKER_99` has no colour. |

## Left out

- Reading and parsing the JSON input, and writing `output.<format>` (convert_output.py:135-136, 153-154), are I/O. The chunks arrive as an already-parsed sequence, and `Convert` returns the text it would write.
- The float arithmetic of `format_seconds` (convert_output.py:24-25, 117-118) is not modelled, because floating point is out of scope. `int(seconds)` and `int((seconds - whole_seconds) * 1000)` are taken as given, as whole seconds plus milliseconds. The binary rounding that can shift the millisecond value is therefore not modelled. Negative offsets cannot be expressed.
- `print(entry)` under `verbose` (convert_output.py:149) is console output. It is modelled as the `printed` out-parameter of `Convert`: the entries printed, in order.
- `main` and argparse (convert_output.py:156-169) are command-line glue. This includes the default `"all"`, which is not among the `choices`.
- The unknown-format path, where `.get(output_format)` returns `None` (convert_output.py:138-142), is not modelled. The command line restricts the format to the three values, so `Format` has exactly three cases.
- Input shape errors are not modelled: a chunk without `text` or `timestamp`, or with fields that are not strings or numbers. In the model every chunk has a text and two times, and only `speaker` is optional.
- Palette.ColorOf: `colors[speaker]` is modelled as a search of the entries from the last inserted. `ColorOfIsDictLookup` proves it equal to the lookup in the dictionary `Colors` that the display builds.
- Text.Split splits at `\n` only, which is enough to state the output layout line by line.
