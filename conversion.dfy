/**
 * The rendering loop of `convert`: the output starts as the formatter's
 * preamble and each chunk's entry, numbered from 1 in input order, is appended
 * to it. Reading the input file and writing `output.<format>` are left out;
 * the chunks arrive already parsed and the result is returned.
 */
module Conversion {
  import opened Wrappers
  import opened Decimal
  import opened Text
  import opened Timestamps
  import opened Palette
  import opened Formatters

  /** The entry of the chunk at position `k`: `enumerate(..., 1)` numbers it `k + 1`. */
  function Entry(formatter: Formatter, chunks: seq<Chunk>, k: nat): Result<string, KeyError>
    requires k < |chunks|
  {
    formatter.formatChunk(chunks[k], k + 1)
  }

  /** The position, from `from` on, of the first chunk whose entry fails; `|chunks|` if none does. */
  function FirstFailure(formatter: Formatter, chunks: seq<Chunk>, from: nat): (n: nat)
    requires from <= |chunks|
    ensures from <= n <= |chunks|
    ensures forall k :: from <= k < n ==> Entry(formatter, chunks, k).Ok?
    ensures n < |chunks| ==> Entry(formatter, chunks, n).Err?
    decreases |chunks| - from
  {
    if from == |chunks| || Entry(formatter, chunks, from).Err? then from
    else FirstFailure(formatter, chunks, from + 1)
  }

  /** The first `n` entries, all of which render. */
  function Entries(formatter: Formatter, chunks: seq<Chunk>, n: nat): (entries: seq<string>)
    requires n <= FirstFailure(formatter, chunks, 0)
    ensures |entries| == n
  {
    if n == 0 then [] else Entries(formatter, chunks, n - 1) + [Entry(formatter, chunks, n - 1).value]
  }

  /** What `convert` writes: the preamble followed by every chunk's entry in input order,
      or, when some chunk cannot be rendered, the KeyError of the first such chunk. */
  function Render(formatter: Formatter, chunks: seq<Chunk>): Result<string, KeyError>
  {
    var n := FirstFailure(formatter, chunks, 0);
    if n < |chunks| then Err(Entry(formatter, chunks, n).error)
    else Ok(formatter.preamble + Concat(Entries(formatter, chunks, n)))
  }

  /** The loop of `convert`. With `verbose` each entry is also printed before it is
      appended; `printed` is the sequence of entries printed. */
  method Convert(formatter: Formatter, chunks: seq<Chunk>, verbose: bool)
    returns (output: Result<string, KeyError>, printed: seq<string>)
    ensures output == Render(formatter, chunks)
    ensures printed == if verbose then Entries(formatter, chunks, FirstFailure(formatter, chunks, 0)) else []
  {
    var buffer := formatter.preamble;
    printed := [];
    for i := 0 to |chunks|
      invariant i <= FirstFailure(formatter, chunks, 0)
      invariant buffer == formatter.preamble + Concat(Entries(formatter, chunks, i))
      invariant printed == if verbose then Entries(formatter, chunks, i) else []
    {
      var entry := formatter.formatChunk(chunks[i], i + 1);
      if entry.Err? {
        RenderAtFailure(formatter, chunks, i);
        output := Err(entry.error);
        return;
      }
      EntriesSnoc(formatter, chunks, i);
      assert buffer + entry.value == formatter.preamble + (Concat(Entries(formatter, chunks, i)) + entry.value);
      if verbose {
        printed := printed + [entry.value];
      }
      buffer := buffer + entry.value;
    }
    RenderWhenAllRender(formatter, chunks);
    output := Ok(buffer);
  }

  lemma EntriesSnoc(formatter: Formatter, chunks: seq<Chunk>, i: nat)
    requires i < FirstFailure(formatter, chunks, 0)
    ensures Entries(formatter, chunks, i + 1) == Entries(formatter, chunks, i) + [Entry(formatter, chunks, i).value]
    ensures Concat(Entries(formatter, chunks, i + 1)) == Concat(Entries(formatter, chunks, i)) + Entry(formatter, chunks, i).value
  {
    ConcatSnoc(Entries(formatter, chunks, i), Entry(formatter, chunks, i).value);
  }

  lemma RenderWhenAllRender(formatter: Formatter, chunks: seq<Chunk>)
    requires FirstFailure(formatter, chunks, 0) == |chunks|
    ensures Render(formatter, chunks) == Ok(formatter.preamble + Concat(Entries(formatter, chunks, |chunks|)))
  {
  }

  lemma RenderAtFailure(formatter: Formatter, chunks: seq<Chunk>, i: nat)
    requires i < |chunks| && i <= FirstFailure(formatter, chunks, 0) && Entry(formatter, chunks, i).Err?
    ensures Render(formatter, chunks) == Err(Entry(formatter, chunks, i).error)
  {
    assert FirstFailure(formatter, chunks, 0) == i;
  }

  /** The k-th piece the loop appends is chunk k's entry. */
  lemma {:induction false} EntriesAt(formatter: Formatter, chunks: seq<Chunk>, n: nat, k: nat)
    requires n <= FirstFailure(formatter, chunks, 0) && k < n
    ensures Entry(formatter, chunks, k).Ok?
    ensures Entries(formatter, chunks, n)[k] == Entry(formatter, chunks, k).value
  {
    if k < n - 1 {
      EntriesAt(formatter, chunks, n - 1, k);
    }
  }

  /** Conversion fails exactly when some chunk fails, and then with the error of the
      first chunk that fails: nothing after it is formatted. */
  lemma RenderFails(formatter: Formatter, chunks: seq<Chunk>)
    ensures Render(formatter, chunks).Ok? <==> forall k :: 0 <= k < |chunks| ==> Entry(formatter, chunks, k).Ok?
    ensures Render(formatter, chunks).Err? ==>
      exists n :: 0 <= n < |chunks| && Entry(formatter, chunks, n).Err?
        && Render(formatter, chunks) == Err(Entry(formatter, chunks, n).error)
        && forall k :: 0 <= k < n ==> Entry(formatter, chunks, k).Ok?
  {
    var n := FirstFailure(formatter, chunks, 0);
    if n < |chunks| {
      assert Entry(formatter, chunks, n).Err?;
    }
  }

  /** Every chunk's entry, in order, when none fails. */
  function AllEntries(formatter: Formatter, chunks: seq<Chunk>): (pieces: seq<string>)
    requires forall k :: 0 <= k < |chunks| ==> Entry(formatter, chunks, k).Ok?
    ensures |pieces| == |chunks|
  {
    seq(|chunks|, k requires 0 <= k < |chunks| => Entry(formatter, chunks, k).value)
  }

  /** On success the output is the preamble followed by every chunk's entry, in order. */
  lemma RenderSucceeds(formatter: Formatter, chunks: seq<Chunk>)
    requires forall k :: 0 <= k < |chunks| ==> Entry(formatter, chunks, k).Ok?
    ensures Render(formatter, chunks) == Ok(formatter.preamble + Concat(AllEntries(formatter, chunks)))
  {
    RenderFails(formatter, chunks);
    var n := FirstFailure(formatter, chunks, 0);
    assert n == |chunks|;
    var pieces := AllEntries(formatter, chunks);
    forall k | 0 <= k < |chunks| ensures Entries(formatter, chunks, n)[k] == pieces[k] {
      EntriesAt(formatter, chunks, n, k);
    }
    assert Entries(formatter, chunks, n) == pieces;
  }

  /** Txt and Vtt read no optional key, so they never fail. */
  lemma TxtAndVttNeverFail(chunks: seq<Chunk>)
    ensures Render(FormatterOf(Txt), chunks).Ok? && Render(FormatterOf(Vtt), chunks).Ok?
  {
    RenderFails(FormatterOf(Txt), chunks);
    RenderFails(FormatterOf(Vtt), chunks);
  }

  /** The key whose absence makes Srt fail on a chunk. */
  function MissingKey(chunk: Chunk): string {
    if chunk.speaker.None? then "speaker" else chunk.speaker.value
  }

  /** Srt succeeds exactly when every chunk has a speaker among `SPEAKER_00` to
      `SPEAKER_64`; otherwise it fails with the first offending chunk's missing key. */
  lemma SrtRenderFails(chunks: seq<Chunk>)
    ensures Render(FormatterOf(Srt), chunks).Ok? <==> forall k :: 0 <= k < |chunks| ==> InPalette(chunks[k])
    ensures Render(FormatterOf(Srt), chunks).Err? ==>
      exists n :: 0 <= n < |chunks| && Render(FormatterOf(Srt), chunks) == Err(KeyError(MissingKey(chunks[n])))
        && !InPalette(chunks[n])
        && forall k :: 0 <= k < n ==> InPalette(chunks[k])
  {
    RenderFails(FormatterOf(Srt), chunks);
    forall k | 0 <= k < |chunks|
      ensures Entry(FormatterOf(Srt), chunks, k).Ok? <==> InPalette(chunks[k])
      ensures Entry(FormatterOf(Srt), chunks, k).Err? ==> Entry(FormatterOf(Srt), chunks, k).error == KeyError(MissingKey(chunks[k]))
    {
      SrtChunkFails(chunks[k], k + 1);
    }
    if Render(FormatterOf(Srt), chunks).Err? {
      var n :| 0 <= n < |chunks| && Entry(FormatterOf(Srt), chunks, n).Err?
        && Render(FormatterOf(Srt), chunks) == Err(Entry(FormatterOf(Srt), chunks, n).error)
        && forall k :: 0 <= k < n ==> Entry(FormatterOf(Srt), chunks, k).Ok?;
      assert !InPalette(chunks[n]);
    }
  }

  /** Whether the chunk's speaker is one of `SPEAKER_00` to `SPEAKER_64`. */
  predicate InPalette(chunk: Chunk) {
    chunk.speaker.Some? && IsPaletteKey(chunk.speaker.value)
  }

  /** A document whose preamble is the lines `header` and whose entries are the lines
      `blocks` is those lines joined; when no line holds a newline, splitting the output
      at newlines gives the lines back, with the empty piece after the final newline. */
  lemma DocumentLines(formatter: Formatter, chunks: seq<Chunk>, header: seq<string>, blocks: seq<seq<string>>)
    requires formatter.preamble == JoinLines(header)
    requires |blocks| == |chunks|
    requires forall k :: 0 <= k < |chunks| ==> Entry(formatter, chunks, k) == Ok(JoinLines(blocks[k]))
    ensures Render(formatter, chunks) == Ok(JoinLines(header + Flatten(blocks)))
    ensures AllNoNewline(header) && (forall k :: 0 <= k < |blocks| ==> AllNoNewline(blocks[k])) ==>
      Split(Render(formatter, chunks).value) == header + Flatten(blocks) + [""]
  {
    RenderSucceeds(formatter, chunks);
    var pieces := AllEntries(formatter, chunks);
    ConcatJoinedBlocks(pieces, blocks);
    JoinLinesAppend(header, Flatten(blocks));
    if AllNoNewline(header) && (forall k :: 0 <= k < |blocks| ==> AllNoNewline(blocks[k])) {
      SplitDocument(header, pieces, blocks);
    }
  }

  function Texts(chunks: seq<Chunk>): seq<string> {
    seq(|chunks|, k requires 0 <= k < |chunks| => chunks[k].text)
  }

  predicate SingleLineTexts(chunks: seq<Chunk>) {
    forall k :: 0 <= k < |chunks| ==> NoNewline(chunks[k].text)
  }

  /** The Txt output is each chunk's text on a line of its own. */
  lemma TxtDocument(chunks: seq<Chunk>)
    ensures Render(FormatterOf(Txt), chunks) == Ok(JoinLines(Texts(chunks)))
    ensures SingleLineTexts(chunks) ==> Split(Render(FormatterOf(Txt), chunks).value) == Texts(chunks) + [""]
  {
    var blocks := seq(|chunks|, k requires 0 <= k < |chunks| => [chunks[k].text]);
    forall k | 0 <= k < |chunks| ensures Entry(FormatterOf(Txt), chunks, k) == Ok(JoinLines(blocks[k])) {
      EntryOf(Txt, chunks, k);
      assert JoinLines(blocks[k]) == chunks[k].text + "\n";
    }
    assert JoinLines([]) == "";
    DocumentLines(FormatterOf(Txt), chunks, [], blocks);
    FlattenLength(blocks, 1);
    forall k | 0 <= k < |chunks| ensures Flatten(blocks)[k] == Texts(chunks)[k] {
      FlattenAt(blocks, 1, k, 0);
    }
    assert Flatten(blocks) == Texts(chunks);
    assert [] + Flatten(blocks) == Texts(chunks);
  }

  /** The Vtt cue blocks: number, timing line, text, blank line. */
  function VttCues(chunks: seq<Chunk>): (cues: seq<seq<string>>)
    ensures |cues| == |chunks|
    ensures forall b :: 0 <= b < |cues| ==> |cues[b]| == 4
  {
    seq(|chunks|, k requires 0 <= k < |chunks| => VttCue(chunks[k], k + 1))
  }

  function VttCue(chunk: Chunk, index: nat): (cue: seq<string>)
    ensures |cue| == 4
  {
    CueLines(index, VttTiming(chunk), chunk.text)
  }

  /** The Vtt output is the `WEBVTT` header line, a blank line, then one cue block per chunk. */
  lemma VttDocument(chunks: seq<Chunk>)
    ensures Render(FormatterOf(Vtt), chunks) == Ok(JoinLines(["WEBVTT", ""] + Flatten(VttCues(chunks))))
    ensures SingleLineTexts(chunks) ==>
      Split(Render(FormatterOf(Vtt), chunks).value) == ["WEBVTT", ""] + Flatten(VttCues(chunks)) + [""]
  {
    var cues := VttCues(chunks);
    forall k | 0 <= k < |chunks|
      ensures Entry(FormatterOf(Vtt), chunks, k) == Ok(JoinLines(cues[k]))
      ensures NoNewline(chunks[k].text) ==> AllNoNewline(cues[k])
    {
      VttEntry(chunks, k);
    }
    VttHeader();
    DocumentLines(FormatterOf(Vtt), chunks, ["WEBVTT", ""], cues);
  }

  lemma VttEntry(chunks: seq<Chunk>, k: nat)
    requires k < |chunks|
    ensures Entry(FormatterOf(Vtt), chunks, k) == Ok(JoinLines(VttCues(chunks)[k]))
    ensures NoNewline(chunks[k].text) ==> AllNoNewline(VttCues(chunks)[k])
  {
    EntryOf(Vtt, chunks, k);
    VttCueOf(chunks, k);
    VttChunkLines(chunks[k], k + 1);
    if NoNewline(chunks[k].text) {
      TimingNoNewline(chunks[k]);
      SplitCue(k + 1, VttTiming(chunks[k]), chunks[k].text);
    }
  }

  lemma VttHeader()
    ensures VttPreamble() == JoinLines(["WEBVTT", ""])
    ensures AllNoNewline(["WEBVTT", ""])
  {
    assert JoinLines(["WEBVTT", ""]) == "WEBVTT" + "\n" + ("" + "\n" + JoinLines([]));
  }

  /** Lines `4k` to `4k + 3` of the Vtt cues are chunk k's block: its number counting
      from 1, its timing line, its text and the blank separator line. */
  lemma VttCueAt(chunks: seq<Chunk>, k: nat)
    requires k < |chunks|
    ensures |Flatten(VttCues(chunks))| == 4 * |chunks|
    ensures Flatten(VttCues(chunks))[4 * k..4 * k + 4]
      == [Digits(k + 1), VttTiming(chunks[k]), chunks[k].text, ""]
  {
    CueBlockAt(VttCues(chunks), k);
  }

  /** In blocks of four lines, block k occupies lines `4k` to `4k + 3`. */
  lemma CueBlockAt(cues: seq<seq<string>>, k: nat)
    requires forall b :: 0 <= b < |cues| ==> |cues[b]| == 4
    requires k < |cues|
    ensures |Flatten(cues)| == 4 * |cues|
    ensures Flatten(cues)[4 * k..4 * k + 4] == cues[k]
  {
    FlattenAt(cues, 4, k, 0);
    FlattenAt(cues, 4, k, 1);
    FlattenAt(cues, 4, k, 2);
    FlattenAt(cues, 4, k, 3);
  }

  /** `colors[k]` is the palette colour of chunk k's speaker. */
  predicate SpeakerColors(chunks: seq<Chunk>, colors: seq<string>) {
    |colors| == |chunks|
    && forall k :: 0 <= k < |chunks| ==>
      chunks[k].speaker.Some? && ColorOf(chunks[k].speaker.value) == Some(colors[k])
  }

  predicate AllSpoken(chunks: seq<Chunk>) {
    forall k :: 0 <= k < |chunks| ==> chunks[k].speaker.Some?
  }

  /** The Srt cue blocks: number, timing line, the text in a font tag with the given
      colour and the speaker's label, blank line. */
  function SrtCues(chunks: seq<Chunk>, colors: seq<string>): (cues: seq<seq<string>>)
    requires AllSpoken(chunks) && |colors| == |chunks|
    ensures |cues| == |chunks|
    ensures forall b :: 0 <= b < |cues| ==> |cues[b]| == 4
  {
    seq(|chunks|, k requires 0 <= k < |chunks| && chunks[k].speaker.Some? => SrtCue(chunks[k], k + 1, colors[k]))
  }

  function SrtCue(chunk: Chunk, index: nat, color: string): (cue: seq<string>)
    requires chunk.speaker.Some?
    ensures |cue| == 4
  {
    CueLines(index, SrtTiming(chunk), FontTag(color, chunk.speaker.value, chunk.text))
  }

  /** When every speaker has a colour, the Srt output is one cue block per chunk. */
  lemma SrtDocument(chunks: seq<Chunk>, colors: seq<string>)
    requires SpeakerColors(chunks, colors)
    ensures AllSpoken(chunks)
    ensures Render(FormatterOf(Srt), chunks) == Ok(JoinLines(Flatten(SrtCues(chunks, colors))))
    ensures SingleLineTexts(chunks) ==> Split(Render(FormatterOf(Srt), chunks).value) == Flatten(SrtCues(chunks, colors)) + [""]
  {
    var cues := SrtCues(chunks, colors);
    forall k | 0 <= k < |chunks|
      ensures Entry(FormatterOf(Srt), chunks, k) == Ok(JoinLines(cues[k]))
      ensures NoNewline(chunks[k].text) ==> AllNoNewline(cues[k])
    {
      EntryOf(Srt, chunks, k);
      SrtCueOf(chunks, colors, k);
      SrtChunkCue(chunks[k], k + 1, colors[k]);
    }
    assert JoinLines([]) == "";
    DocumentLines(FormatterOf(Srt), chunks, [], cues);
    assert [] + Flatten(cues) == Flatten(cues);
  }

  /** Lines `4k` to `4k + 3` of the Srt cues are chunk k's block, its text wrapped in
      a font tag carrying its colour and the speaker's label. */
  lemma SrtCueAt(chunks: seq<Chunk>, colors: seq<string>, k: nat)
    requires AllSpoken(chunks) && |colors| == |chunks|
    requires k < |chunks|
    ensures |Flatten(SrtCues(chunks, colors))| == 4 * |chunks|
    ensures Flatten(SrtCues(chunks, colors))[4 * k..4 * k + 4]
      == [Digits(k + 1), SrtTiming(chunks[k]), FontTag(colors[k], chunks[k].speaker.value, chunks[k].text), ""]
  {
    CueBlockAt(SrtCues(chunks, colors), k);
  }

  lemma EntryOf(format: Format, chunks: seq<Chunk>, k: nat)
    requires k < |chunks|
    ensures Entry(FormatterOf(format), chunks, k) == FormatChunk(format, chunks[k], k + 1)
  {
  }

  lemma VttCueOf(chunks: seq<Chunk>, k: nat)
    requires k < |chunks|
    ensures VttCues(chunks)[k] == CueLines(k + 1, VttTiming(chunks[k]), chunks[k].text)
  {
  }

  lemma SrtCueOf(chunks: seq<Chunk>, colors: seq<string>, k: nat)
    requires AllSpoken(chunks) && |colors| == |chunks| && k < |chunks|
    ensures SrtCues(chunks, colors)[k]
      == CueLines(k + 1, SrtTiming(chunks[k]), FontTag(colors[k], chunks[k].speaker.value, chunks[k].text))
  {
  }

  /** A single chunk renders as the preamble followed by its entry numbered 1. */
  lemma RenderSingle(formatter: Formatter, chunk: Chunk)
    requires formatter.formatChunk(chunk, 1).Ok?
    ensures Render(formatter, [chunk]) == Ok(formatter.preamble + formatter.formatChunk(chunk, 1).value)
  {
    assert Entry(formatter, [chunk], 0) == formatter.formatChunk(chunk, 1);
    RenderSucceeds(formatter, [chunk]);
    var pieces := AllEntries(formatter, [chunk]);
    var entry := formatter.formatChunk(chunk, 1).value;
    assert pieces[0] == entry;
    assert pieces[1..] == [];
    assert Concat(pieces) == entry + Concat([]);
    assert entry + "" == entry;
  }

  /** One Vtt chunk of text "Hello" from 0 to 1.5 seconds: the header, then cue 1. */
  lemma VttExample()
    ensures Render(FormatterOf(Vtt), [Chunk("Hello", Time(0, 0), Time(1, 500), None)])
      == Ok(JoinLines(["WEBVTT", "", "1", "00:00:00.000" + " --> " + "00:00:01.500", "Hello", ""]))
  {
    var chunks := [Chunk("Hello", Time(0, 0), Time(1, 500), None)];
    VttDocument(chunks);
    VttCuesExample();
    var cue := ["1", "00:00:00.000" + " --> " + "00:00:01.500", "Hello", ""];
    FlattenSingle(cue);
    assert ["WEBVTT", ""] + cue == ["WEBVTT", "", "1", "00:00:00.000" + " --> " + "00:00:01.500", "Hello", ""];
  }

  lemma VttCuesExample()
    ensures VttCues([Chunk("Hello", Time(0, 0), Time(1, 500), None)])
      == [["1", "00:00:00.000" + " --> " + "00:00:01.500", "Hello", ""]]
  {
    VttTimingExample();
    assert Digits(1) == "1";
  }

  lemma FlattenSingle(block: seq<string>)
    ensures Flatten([block]) == block
  {
    assert [block][1..] == [];
    assert block + [] == block;
  }

  lemma VttTimingExample()
    ensures VttTiming(Chunk("Hello", Time(0, 0), Time(1, 500), None)) == "00:00:00.000" + " --> " + "00:00:01.500"
  {
    ZeroExample();
    HalfSecondExample();
  }

  /** One Srt chunk by the first speaker: cue 1, its text in the first palette colour. */
  lemma SrtExample()
    ensures Render(FormatterOf(Srt), [Chunk("Hi", Time(0, 0), Time(1, 500), Some("SPEAKER_00"))])
      == Ok(JoinLines(["1", "00:00:00,000" + " --> " + "00:00:01,500", FontTag("#ff00ff", "SPEAKER_00", "Hi"), ""]))
  {
    var chunks := [Chunk("Hi", Time(0, 0), Time(1, 500), Some("SPEAKER_00"))];
    ExampleFirst();
    SrtDocument(chunks, ["#ff00ff"]);
    SrtCuesExample();
    var cue := ["1", "00:00:00,000" + " --> " + "00:00:01,500", FontTag("#ff00ff", "SPEAKER_00", "Hi"), ""];
    FlattenSingle(cue);
  }

  lemma SrtCuesExample()
    ensures SrtCues([Chunk("Hi", Time(0, 0), Time(1, 500), Some("SPEAKER_00"))], ["#ff00ff"])
      == [["1", "00:00:00,000" + " --> " + "00:00:01,500", FontTag("#ff00ff", "SPEAKER_00", "Hi"), ""]]
  {
    var chunk := Chunk("Hi", Time(0, 0), Time(1, 500), Some("SPEAKER_00"));
    SrtTimingExample(chunk);
    assert Digits(1) == "1";
  }

  lemma SrtTimingExample(chunk: Chunk)
    requires chunk.start == Time(0, 0) && chunk.end == Time(1, 500)
    ensures SrtTiming(chunk) == "00:00:00,000" + " --> " + "00:00:01,500"
  {
    ZeroExample();
    HalfSecondExample();
  }

  /** The same chunk as Txt is its text on one line. */
  lemma TxtExample()
    ensures Render(FormatterOf(Txt), [Chunk("Hello", Time(0, 0), Time(1, 500), None)]) == Ok("Hello\n")
  {
    var chunk := Chunk("Hello", Time(0, 0), Time(1, 500), None);
    RenderSingle(FormatterOf(Txt), chunk);
    assert "" + ("Hello" + "\n") == "Hello\n";
  }

  /** Srt stops at a speaker outside the palette, naming it. */
  lemma SrtUnknownSpeakerExample()
    ensures Render(FormatterOf(Srt), [Chunk("Hi", Time(0, 0), Time(1, 0), Some("SPEAKER_99"))])
      == Err(KeyError("SPEAKER_99"))
  {
    var chunks := [Chunk("Hi", Time(0, 0), Time(1, 0), Some("SPEAKER_99"))];
    ExampleUnknown();
    assert Entry(FormatterOf(Srt), chunks, 0) == Err(KeyError("SPEAKER_99"));
    RenderFails(FormatterOf(Srt), chunks);
  }

  /** Srt on a chunk without a speaker fails with the key `speaker`. */
  lemma SrtNoSpeakerExample()
    ensures Render(FormatterOf(Srt), [Chunk("Hi", Time(0, 0), Time(1, 0), None)]) == Err(KeyError("speaker"))
  {
    var chunks := [Chunk("Hi", Time(0, 0), Time(1, 0), None)];
    assert Entry(FormatterOf(Srt), chunks, 0) == Err(KeyError("speaker"));
    RenderFails(FormatterOf(Srt), chunks);
  }
}
