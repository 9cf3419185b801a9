/**
 * The SubRip formatter's fixed speaker palette: speaker `SPEAKER_<i:02d>` for
 * `i` in 0..64 is drawn in the i-th colour of a hue rotation that starts and
 * ends at magenta.
 */
module Palette {
  import opened Wrappers
  import opened Decimal

  /** The colours of speakers 0 to 64, in order, eight to a row. */
  const HueRows: seq<seq<string>> := [
    ["#ff00ff", "#ff0000", "#ff1800", "#ff3000", "#ff4800", "#ff6000", "#ff7800", "#ff8f00"],
    ["#ffa700", "#ffbf00", "#ffd700", "#ffef00", "#f7ff00", "#dfff00", "#c7ff00", "#afff00"],
    ["#97ff00", "#7fff00", "#68ff00", "#50ff00", "#38ff00", "#20ff00", "#08ff00", "#00ff10"],
    ["#00ff28", "#00ff40", "#00ff58", "#00ff70", "#00ff87", "#00ff9f", "#00ffb7", "#00ffcf"],
    ["#00ffe7", "#00ffff", "#00e7ff", "#00cfff", "#00b7ff", "#009fff", "#0087ff", "#0070ff"],
    ["#0058ff", "#0040ff", "#0028ff", "#0010ff", "#0800ff", "#2000ff", "#3800ff", "#5000ff"],
    ["#6800ff", "#7f00ff", "#9700ff", "#af00ff", "#c700ff", "#df00ff", "#f700ff", "#ff00ef"],
    ["#ff00d7", "#ff00bf", "#ff00a7", "#ff008f", "#ff0078", "#ff0060", "#ff0048", "#ff0030"],
    ["#ff0018"]
  ]

  const Hues: seq<string> :=
    HueRows[0] + HueRows[1] + HueRows[2] + HueRows[3] + HueRows[4] +
    HueRows[5] + HueRows[6] + HueRows[7] + HueRows[8]

  const Prefix: string := "SPEAKER_"

  /** The key of speaker `i`: `f"SPEAKER_{i:02d}"`. */
  function SpeakerLabel(i: nat): string {
    Prefix + Padded(i, 2)
  }

  /** Reads a speaker key back to its number: `SPEAKER_` followed by at least two digits. */
  function SpeakerNumber(key: string): Option<nat> {
    if |key| >= |Prefix| + 2 && key[..|Prefix|] == Prefix && AllDigits(key[|Prefix|..])
    then Some(Value(key[|Prefix|..]))
    else None
  }

  lemma {:induction false} SpeakerNumberOfLabel(i: nat)
    ensures SpeakerNumber(SpeakerLabel(i)) == Some(i)
  {
    PaddedReadsBack(i, 2);
    var key := SpeakerLabel(i);
    assert key[..|Prefix|] == Prefix && key[|Prefix|..] == Padded(i, 2);
  }

  /** Distinct speakers have distinct keys. */
  lemma LabelInjective(i: nat, j: nat)
    requires SpeakerLabel(i) == SpeakerLabel(j)
    ensures i == j
  {
    SpeakerNumberOfLabel(i);
    SpeakerNumberOfLabel(j);
  }

  /** The `colors` dictionary of `SrtFormatter.format_chunk`. */
  const Colors: map<string, string> := Table(|Hues|)

  /** The dictionary display's first `n` entries, inserted in order. */
  function Table(n: nat): map<string, string>
    requires n <= |Hues|
  {
    if n == 0 then map[] else Table(n - 1)[SpeakerLabel(n - 1) := Hues[n - 1]]
  }

  /** `colors[speaker]`, with the missing key as `None`: the entries are searched from
      the last inserted, so a key's latest insertion is the one found. */
  function ColorOf(speaker: string): Option<string> {
    Lookup(speaker, 65)
  }

  function Lookup(speaker: string, n: nat): Option<string>
    requires n <= |Hues|
  {
    if n == 0 then None
    else if SpeakerLabel(n - 1) == speaker then Some(Hues[n - 1])
    else Lookup(speaker, n - 1)
  }

  /** Searching the first `n` entries is looking the key up in the dictionary they build. */
  lemma {:induction false} LookupTable(speaker: string, n: nat)
    requires n <= |Hues|
    ensures Lookup(speaker, n) == if speaker in Table(n) then Some(Table(n)[speaker]) else None
  {
    if n > 0 && SpeakerLabel(n - 1) != speaker {
      LookupTable(speaker, n - 1);
    }
  }

  /** `ColorOf` is the lookup in `Colors`. */
  lemma ColorOfIsDictLookup(speaker: string)
    ensures ColorOf(speaker) == if speaker in Colors then Some(Colors[speaker]) else None
  {
    LookupTable(speaker, |Hues|);
  }

  /** The first `n` entries hold exactly the keys of speakers 0 to n - 1. */
  lemma {:induction false} TableKeys(n: nat)
    requires n <= |Hues|
    ensures Table(n).Keys == LabelSet(n)
  {
    if n > 0 {
      TableKeys(n - 1);
      LabelSetSnoc(n);
      assert Table(n).Keys == Table(n - 1).Keys + {SpeakerLabel(n - 1)};
    } else {
      assert LabelSet(0) == {};
    }
  }

  lemma LabelSetSnoc(n: nat)
    requires n > 0
    ensures LabelSet(n) == LabelSet(n - 1) + {SpeakerLabel(n - 1)}
  {
  }

  /** Speaker i's entry keeps the i-th colour: later keys are different, so no later
      insertion overwrites it. */
  lemma {:induction false} TableValue(n: nat, i: nat)
    requires i < n <= |Hues|
    ensures SpeakerLabel(i) in Table(n) && Table(n)[SpeakerLabel(i)] == Hues[i]
  {
    if i < n - 1 {
      TableValue(n - 1, i);
      if SpeakerLabel(n - 1) == SpeakerLabel(i) {
        LabelInjective(n - 1, i);
      }
    }
  }

  /** The palette's domain is exactly the keys `SPEAKER_00` to `SPEAKER_64`, and speaker `i`
      gets the i-th colour. */
  lemma ColorOfSpeaker(speaker: string)
    ensures ColorOf(speaker).Some? <==> IsPaletteKey(speaker)
    ensures forall i :: 0 <= i < 65 && speaker == SpeakerLabel(i) ==> ColorOf(speaker) == Some(Hues[i])
  {
    ColorOfIsDictLookup(speaker);
    TableKeys(|Hues|);
    InLabelSet(speaker, 65);
    forall i | 0 <= i < 65 && speaker == SpeakerLabel(i) ensures ColorOf(speaker) == Some(Hues[i]) {
      TableValue(|Hues|, i);
    }
  }

  /** Speaker `i` below 65 gets the i-th colour. */
  lemma ColorOfLabel(i: nat)
    requires i < 65
    ensures ColorOf(SpeakerLabel(i)) == Some(Hues[i])
  {
    ColorOfIsDictLookup(SpeakerLabel(i));
    TableValue(|Hues|, i);
  }

  /** A speaker number from 65 on has no colour. */
  lemma NoColorBeyondPalette(i: nat)
    requires i >= 65
    ensures ColorOf(SpeakerLabel(i)) == None
  {
    ColorOfSpeaker(SpeakerLabel(i));
    if ColorOf(SpeakerLabel(i)).Some? {
      var j :| 0 <= j < 65 && SpeakerLabel(i) == SpeakerLabel(j);
      LabelInjective(i, j);
    }
  }

  /** `speaker` is one of the palette's keys, `SPEAKER_00` to `SPEAKER_64`. */
  predicate IsPaletteKey(speaker: string) {
    exists i :: 0 <= i < 65 && speaker == SpeakerLabel(i)
  }

  /** The keys of speakers 0 to n - 1. */
  function LabelSet(n: nat): set<string> {
    set i | 0 <= i < n :: SpeakerLabel(i)
  }

  lemma InLabelSet(speaker: string, n: nat)
    ensures speaker in LabelSet(n) <==> exists i :: 0 <= i < n && speaker == SpeakerLabel(i)
  {
  }

  lemma {:induction false} LabelSetSize(n: nat)
    ensures |LabelSet(n)| == n
  {
    if n > 0 {
      LabelSetSize(n - 1);
      var last := SpeakerLabel(n - 1);
      LabelSetSnoc(n);
      if last in LabelSet(n - 1) {
        var i :| 0 <= i < n - 1 && SpeakerLabel(i) == last;
        LabelInjective(i, n - 1);
      }
    } else {
      assert LabelSet(0) == {};
    }
  }

  /** The palette has 65 entries. */
  lemma PaletteSize()
    ensures |Colors| == 65
  {
    LabelSetSize(65);
    TableKeys(|Hues|);
  }


  predicate IsHexDigit(c: char) {
    '0' <= c <= '9' || 'a' <= c <= 'f'
  }

  /** `#rrggbb` in lower-case hexadecimal. */
  predicate IsHexColor(c: string) {
    |c| == 7 && c[0] == '#' && forall k :: 1 <= k < 7 ==> IsHexDigit(c[k])
  }

  predicate AllHex(colors: seq<string>) {
    forall i :: 0 <= i < |colors| ==> IsHexColor(colors[i])
  }

  lemma AllHexJoin(a: seq<string>, b: seq<string>)
    requires AllHex(a) && AllHex(b)
    ensures AllHex(a + b)
  {
    forall i | 0 <= i < |a + b| ensures IsHexColor((a + b)[i]) {
      if i >= |a| {
        assert (a + b)[i] == b[i - |a|];
      }
    }
  }

  lemma Row0Hex()
    ensures AllHex(HueRows[0])
  {
  }

  lemma Row1Hex()
    ensures AllHex(HueRows[1])
  {
  }

  lemma Row2Hex()
    ensures AllHex(HueRows[2])
  {
  }

  lemma Row3Hex()
    ensures AllHex(HueRows[3])
  {
  }

  lemma Row4Hex()
    ensures AllHex(HueRows[4])
  {
  }

  lemma Row5Hex()
    ensures AllHex(HueRows[5])
  {
  }

  lemma Row6Hex()
    ensures AllHex(HueRows[6])
  {
  }

  lemma Row7Hex()
    ensures AllHex(HueRows[7])
  {
  }

  lemma Row8Hex()
    ensures AllHex(HueRows[8])
  {
  }

  lemma HuesHex()
    ensures AllHex(Hues)
  {
    Row0Hex();
    Row1Hex();
    Row2Hex();
    Row3Hex();
    Row4Hex();
    Row5Hex();
    Row6Hex();
    Row7Hex();
    Row8Hex();
    var joined := HueRows[0];
    AllHexJoin(joined, HueRows[1]);
    joined := joined + HueRows[1];
    AllHexJoin(joined, HueRows[2]);
    joined := joined + HueRows[2];
    AllHexJoin(joined, HueRows[3]);
    joined := joined + HueRows[3];
    AllHexJoin(joined, HueRows[4]);
    joined := joined + HueRows[4];
    AllHexJoin(joined, HueRows[5]);
    joined := joined + HueRows[5];
    AllHexJoin(joined, HueRows[6]);
    joined := joined + HueRows[6];
    AllHexJoin(joined, HueRows[7]);
    joined := joined + HueRows[7];
    AllHexJoin(joined, HueRows[8]);
    joined := joined + HueRows[8];
    assert joined == Hues;
  }

  /** Every colour of the palette is a well-formed `#rrggbb` value. */
  lemma ColorsAreHex(speaker: string)
    requires ColorOf(speaker).Some?
    ensures IsHexColor(ColorOf(speaker).value)
  {
    ColorOfSpeaker(speaker);
    HuesHex();
  }

  lemma ExampleFirst()
    ensures ColorOf("SPEAKER_00") == Some("#ff00ff")
  {
    ColorOfLabel(0);
    LabelZero();
  }

  lemma LabelZero()
    ensures SpeakerLabel(0) == "SPEAKER_00"
  {
    assert Zeros(1) == "0";
  }

  lemma ExampleLast()
    ensures ColorOf("SPEAKER_64") == Some("#ff0018")
  {
    assert Digits(64) == "64";
    ColorOfLabel(64);
    assert SpeakerLabel(64) == "SPEAKER_64";
  }

  lemma ExampleUnknown()
    ensures ColorOf("SPEAKER_99") == None
  {
    assert Digits(99) == "99";
    assert SpeakerLabel(99) == "SPEAKER_99";
    NoColorBeyondPalette(99);
  }
}
