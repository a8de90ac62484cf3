/** How many audio codecs a printed list may have: the parser counts them by the length of
    the value, sixteen characters each. */
module WfdAudio {
  import opened Machine
  import opened Wrappers
  import opened WfdText
  import opened WfdMessage
  import opened WfdRoundTrip

  /** A codec of the standard, with a latency of two hexadecimal digits. */
  predicate Standard(c: AudioCodec) {
    (c.format == Some("LPCM") || c.format == Some("AAC") || c.format == Some("AC3")) && c.latency < 256
  }

  function CountLpcm(list: seq<AudioCodec>): nat {
    if list == [] then 0 else (if list[0].format == Some("LPCM") then 1 else 0) + CountLpcm(list[1..])
  }

  function Power16(k: nat): nat {
    if k == 0 then 1 else 16 * Power16(k - 1)
  }

  lemma {:induction false} HexDigitsFit(n: nat, k: nat)
    requires k >= 1 && n < Power16(k)
    ensures |Digits(n, 16)| <= k
    decreases k
  {
    if n >= 16 {
      assert k > 1;
      HexDigitsFit(n / 16, k - 1);
    }
  }

  lemma HexWidths(c: AudioCodec)
    requires c.latency < 256
    ensures |Hex(c.modes, 8)| == 8 && |Hex(c.latency, 2)| == 2
  {
    assert Power16(2) == 256;
    assert Power16(4) == 65536;
    assert Power16(8) == TWO32;
    HexDigitsFit(c.modes, 8);
    HexDigitsFit(c.latency, 2);
  }

  lemma SpacedLength(w: string, ws: seq<string>)
    ensures |Spaced([w] + ws)| == 1 + |w| + |Spaced(ws)|
  {
    assert ([w] + ws)[1..] == ws;
  }

  lemma FirstLength(c: AudioCodec, tail: string, ws: seq<string>)
    requires Standard(c)
    ensures |Spaced([FormatText(c), Hex(c.modes, 8), Hex(c.latency, 2) + tail] + ws)|
            == 16 + (if c.format == Some("LPCM") then 1 else 0) + |tail| + |Spaced(ws)|
  {
    HexWidths(c);
    var a := Hex(c.modes, 8);
    var b := Hex(c.latency, 2) + tail;
    assert [FormatText(c), a, b] + ws == [FormatText(c)] + ([a] + ([b] + ws));
    SpacedLength(FormatText(c), [a] + ([b] + ws));
    SpacedLength(a, [b] + ws);
    SpacedLength(b, ws);
  }

  /** The length of the printed value of n codecs, l of them LPCM. */
  lemma {:induction false} ValueLength(list: seq<AudioCodec>)
    requires list != [] && forall i :: 0 <= i < |list| ==> Standard(list[i])
    ensures |Spaced(AudioWords(list))| == 17 * |list| + CountLpcm(list) - 1
  {
    var tail := if |list| > 1 then "," else "";
    FirstLength(list[0], tail, AudioWords(list[1..]));
    if |list| > 1 {
      ValueLength(list[1..]);
    } else {
      assert AudioWords(list[1..]) == [];
    }
  }

  lemma StandardIsReadable(list: seq<AudioCodec>)
    requires forall i :: 0 <= i < |list| ==> Standard(list[i])
    ensures ReadableCodecs(list)
  {
    forall i | 0 <= i < |list| ensures Readable(FormatText(list[i])) {
      assert Standard(list[i]);
    }
  }

  /** The number of codecs the parser counts. */
  lemma CountedCodecs(list: seq<AudioCodec>)
    requires list != [] && forall i :: 0 <= i < |list| ==> Standard(list[i])
    ensures AudioCount(list) == |list| + (CountLpcm(list) + |list| - 1) / 16
    ensures AudioCount(list) == |list| <==> CountLpcm(list) + |list| <= 16
  {
    ValueLength(list);
  }

  /** The parser gets the printed codecs right, but behind them it makes up one more for
      every sixteen by which n and the number of LPCM codecs exceed one; so the list comes
      back exactly when both together are at most sixteen. */
  lemma AudioBound(list: seq<AudioCodec>)
    requires list != [] && forall i :: 0 <= i < |list| ==> Standard(list[i])
    ensures var back := AudioOf(Spaced(AudioWords(list)));
            && |back| == |list| + (CountLpcm(list) + |list| - 1) / 16
            && back[..|list|] == list
            && (back == list <==> CountLpcm(list) + |list| <= 16)
  {
    CountedCodecs(list);
    StandardIsReadable(list);
    var n := AudioCount(list);
    AudioReads(list, n);
    ResizedSame(list, n);
    StandardComesFirst(list, n);
  }

  lemma StandardComesFirst(list: seq<AudioCodec>, n: nat)
    requires n >= |list| && forall i :: 0 <= i < |list| ==> Standard(list[i])
    ensures Resized(list, n)[..|list|] == list
  {
    var r := Resized(list, n);
    forall i | 0 <= i < |list| ensures r[i] == list[i] {
      assert Standard(list[i]);
    }
  }
}
