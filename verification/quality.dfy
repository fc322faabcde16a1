/**
 The master playlist step of starting a client (streammanager.js,
 `parseQualityData`, `getBestQuality`, `selectQuality`): list the variant
 streams with their advertised bandwidth (the BANDWIDTH attribute of
 EXT-X-STREAM-INF, section 4.3.4.2 of RFC 8216) and choose one of them.
 */
module Quality {
  import opened Common
  import opened ScsHelpers

  datatype Variant = Variant(url: string, bw: nat)

  const BandwidthAttr: string := "BANDWIDTH="

  /** Below this bandwidth a stream is taken to be audio only. */
  const AudioOnlyBelow: nat := 200000

  // -----------------------------------------------------------------------
  // Parsing

  /** The regular expression `BANDWIDTH=(\d+)` matches at position `p`. */
  predicate BandwidthAt(line: string, p: int) {
    0 <= p && OccursAt(line, BandwidthAttr, p) && p + |BandwidthAttr| < |line|
    && IsDigit(line[p + |BandwidthAttr|])
  }

  /** The leftmost match at or after `from`. */
  function FirstBandwidth(line: string, from: nat): (r: Option<nat>)
    ensures r.Some? ==> from <= r.value && BandwidthAt(line, r.value)
    ensures r.Some? ==> forall q :: from <= q < r.value ==> !BandwidthAt(line, q)
    ensures r.None? ==> forall q :: from <= q ==> !BandwidthAt(line, q)
    decreases |line| - from
  {
    if from + |BandwidthAttr| >= |line| then None
    else if BandwidthAt(line, from) then Some(from)
    else FirstBandwidth(line, from + 1)
  }

  /** The number the leftmost match captures: `AVERAGE-BANDWIDTH=` counts too, being
      leftmost when it comes first. */
  function BandwidthValue(line: string): (r: Option<nat>)
    ensures r.Some? <==> exists p :: BandwidthAt(line, p)
  {
    match FirstBandwidth(line, 0)
    case None => None
    case Some(p) =>
      var digits := line[p + |BandwidthAttr|..];
      Some(DigitsValue(digits[..DigitRun(digits)]))
  }

  /** A line whose first match is `BANDWIDTH=` followed by the decimal spelling of `n`
      advertises `n`. */
  lemma BandwidthReads(pre: string, n: nat, rest: string)
    requires NotDigitLed(rest)
    requires forall q :: 0 <= q < |pre| ==> !BandwidthAt(pre + BandwidthAttr + DecimalString(n) + rest, q)
    ensures BandwidthValue(pre + BandwidthAttr + DecimalString(n) + rest) == Some(n)
  {
    var d := DecimalString(n);
    var line := pre + BandwidthAttr + d + rest;
    assert line == pre + BandwidthAttr + (d + rest) by { ConcatAssoc(pre + BandwidthAttr, d, rest); }
    BandwidthAfter(pre, d + rest);
    ReadsDecimal(n, rest);
  }

  /** The match found after `pre` reads the digits that follow `BANDWIDTH=`. */
  lemma BandwidthAfter(pre: string, tail: string)
    requires |tail| > 0 && IsDigit(tail[0])
    requires forall q :: 0 <= q < |pre| ==> !BandwidthAt(pre + BandwidthAttr + tail, q)
    ensures BandwidthValue(pre + BandwidthAttr + tail) == Some(DigitsValue(tail[..DigitRun(tail)]))
  {
    var line := pre + BandwidthAttr + tail;
    var p := |pre|;
    assert line[p..p + |BandwidthAttr|] == BandwidthAttr;
    assert line[p + |BandwidthAttr|..] == tail;
    assert BandwidthAt(line, p);
  }

  /** `url.substring(0, url.lastIndexOf("/"))`: everything before the last `/`, or nothing
      when there is none. */
  function BaseUrl(url: string): (r: string)
    ensures r <= url
    ensures '/' in url ==> |r| < |url| && url[|r|] == '/' && '/' !in url[|r| + 1..]
    ensures '/' !in url ==> r == ""
  {
    match LastIndexOf(url, '/')
    case None => ""
    case Some(i) => url[..i]
  }

  /** Line `i` names a variant: it does not start with `#` and the line before it has a
      bandwidth. Empty lines qualify, as `""[0] !== '#'`. */
  predicate Qualifies(lines: seq<string>, i: int) {
    1 <= i < |lines| && !StartsWith(lines[i], "#") && BandwidthValue(lines[i - 1]).Some?
  }

  /** The variant line `i` names: its url below `base`, with the bandwidth of the line
      before. */
  function VariantAt(base: string, lines: seq<string>, i: int): Variant
    requires Qualifies(lines, i)
  {
    Variant(base + "/" + lines[i], BandwidthValue(lines[i - 1]).value)
  }

  /** The positions below `n` of the lines that name a variant, ascending. */
  function QualifyingBelow(lines: seq<string>, n: nat): (r: seq<nat>)
    requires n <= |lines|
    ensures forall i :: i in r <==> i < n && Qualifies(lines, i)
    ensures forall k, l :: 0 <= k < l < |r| ==> r[k] < r[l]
  {
    if n == 0 then []
    else
      var prefix := QualifyingBelow(lines, n - 1);
      assert forall k :: 0 <= k < |prefix| ==> prefix[k] in prefix;
      prefix + if Qualifies(lines, n - 1) then [n - 1] else []
  }

  /** Every line that names a variant, in order. */
  function Qualifying(lines: seq<string>): seq<nat> {
    QualifyingBelow(lines, |lines|)
  }

  /** The `forEach` of `parseQualityData` from line `i` on, `prev` being line `i - 1` and
      `acc` the variants of the lines before. */
  function Collect(base: string, lines: seq<string>, i: nat, prev: string, acc: seq<Variant>): (r: seq<Variant>)
    requires 1 <= i <= |lines| && prev == lines[i - 1]
    requires |acc| == |QualifyingBelow(lines, i)|
    requires forall k :: 0 <= k < |acc| ==> acc[k] == VariantAt(base, lines, QualifyingBelow(lines, i)[k])
    ensures |r| == |Qualifying(lines)|
    ensures forall k :: 0 <= k < |r| ==> r[k] == VariantAt(base, lines, Qualifying(lines)[k])
    decreases |lines| - i
  {
    if i == |lines| then acc
    else
      var cur := lines[i];
      var next := if !StartsWith(cur, "#") && BandwidthValue(prev).Some?
                  then acc + [Variant(base + "/" + cur, BandwidthValue(prev).value)]
                  else acc;
      Collect(base, lines, i + 1, cur, next)
  }

  /** The variants of the lines, one per line that names one, in the order of the lines. */
  function Variants(base: string, lines: seq<string>): (r: seq<Variant>)
    ensures |r| == |Qualifying(lines)|
    ensures forall k :: 0 <= k < |r| ==> r[k] == VariantAt(base, lines, Qualifying(lines)[k])
  {
    if |lines| == 0 then [] else Collect(base, lines, 1, lines[0], [])
  }

  /** A variant is listed exactly when some line names it. */
  lemma VariantsMembership(base: string, lines: seq<string>, v: Variant)
    ensures v in Variants(base, lines) <==> exists i :: Qualifies(lines, i) && v == VariantAt(base, lines, i)
  {
    var r := Variants(base, lines);
    var q := Qualifying(lines);
    if v in r {
      var k :| 0 <= k < |r| && r[k] == v;
      assert q[k] in q;
    }
    if i :| Qualifies(lines, i) && v == VariantAt(base, lines, i) {
      assert i in q;
      var k :| 0 <= k < |q| && q[k] == i;
      assert r[k] == v;
    }
  }

  datatype QualityError = FirstLineNotATag

  /** `parseQualityData`: split the master playlist into lines and collect the variants. The
      first line has no predecessor; unless it starts with `#` the source dereferences that
      missing line and the client is aborted. */
  function ParseQualityData(streamUrl: string, text: string): (r: Result<seq<Variant>, QualityError>)
    ensures r.Failure? <==> !StartsWith(Split(text, '\n')[0], "#")
    ensures r.Success? ==> var lines := Split(text, '\n');
      && |r.value| == |Qualifying(lines)|
      && forall k :: 0 <= k < |r.value| ==> r.value[k] == VariantAt(BaseUrl(streamUrl), lines, Qualifying(lines)[k])
  {
    var lines := Split(text, '\n');
    if !StartsWith(lines[0], "#") then Failure(FirstLineNotATag)
    else Success(Variants(BaseUrl(streamUrl), lines))
  }

  // -----------------------------------------------------------------------
  // Choosing

  /** `getBestQuality`: the position of the first variant with the highest bandwidth. */
  function BestIndex(list: seq<Variant>): (r: nat)
    requires |list| > 0
    ensures r < |list|
    ensures forall k :: 0 <= k < |list| ==> list[k].bw <= list[r].bw
    ensures forall k :: 0 <= k < r ==> list[k].bw < list[r].bw
  {
    BestFrom(list, 1, 0)
  }

  /** The scan of `getBestQuality` from position `i`, with `best` the winner so far: a later
      variant replaces it only with a strictly higher bandwidth. */
  function BestFrom(list: seq<Variant>, i: nat, best: nat): (r: nat)
    requires best < i <= |list|
    requires forall k :: 0 <= k < i ==> list[k].bw <= list[best].bw
    requires forall k :: 0 <= k < best ==> list[k].bw < list[best].bw
    ensures r < |list|
    ensures forall k :: 0 <= k < |list| ==> list[k].bw <= list[r].bw
    ensures forall k :: 0 <= k < r ==> list[k].bw < list[r].bw
    decreases |list| - i
  {
    if i == |list| then best
    else if list[i].bw > list[best].bw then BestFrom(list, i + 1, i)
    else BestFrom(list, i + 1, best)
  }

  datatype BwMode = RandomBw | BiasedBw | BestBw | OtherBw(name: string)

  /** The draws a selection may use: `choice` decides between best and random under the
      biased mode, `index` picks a variant at random. */
  datatype Draws = Draws(choice: nat, index: nat)

  predicate ValidDraws(d: Draws) {
    d.choice < RandomScale && d.index < RandomScale
  }

  /** The test of the biased mode on a draw `r1` in [1, 100]: as the source writes it,
      best quality below 70; as intended, best quality for 70 of the 100 values. */
  datatype BiasTest = AsWritten | AsIntended

  predicate PicksBest(t: BiasTest, r1: int) {
    match t
    case AsWritten => r1 < 70
    case AsIntended => r1 <= 70
  }

  /** How many draws in [1, n] pick the best quality under test `t`. */
  function BestDraws(n: nat, t: BiasTest): nat {
    if n == 0 then 0 else BestDraws(n - 1, t) + (if PicksBest(t, n) then 1 else 0)
  }

  lemma {:induction false} BestDrawsCount(n: nat)
    ensures BestDraws(n, AsWritten) == Min(n, 69)
    ensures BestDraws(n, AsIntended) == Min(n, 70)
  {
    if n > 0 {
      BestDrawsCount(n - 1);
    }
  }

  /** The biased test takes the best branch for 69 of the 100 values of its draw in
      [1, 100] as written, and for 70 as intended. */
  lemma BiasedOdds()
    ensures BestDraws(100, AsWritten) == 69
    ensures BestDraws(100, AsIntended) == 70
  {
    BestDrawsCount(100);
  }

  /** `selectQuality` with the biased test `t`: `None` when the client is aborted. With
      `skipAudioOnly`, an audio-only best variant aborts; random picks any variant, best the
      best, biased the best when `t` passes the draw in [1, 100] and a random variant
      otherwise. An empty list, or a mode the source does not know, leaves nothing
      selected, which aborts the client. */
  function SelectQuality(list: seq<Variant>, mode: BwMode, skipAudioOnly: bool, d: Draws, t: BiasTest): (r: Option<Variant>)
    requires ValidDraws(d)
    ensures |list| == 0 ==> r.None?
    ensures mode.OtherBw? ==> r.None?
    ensures |list| > 0 && skipAudioOnly && list[BestIndex(list)].bw < AudioOnlyBelow ==> r.None?
    ensures r.Some? ==> r.value in list
    ensures |list| > 0 && !(skipAudioOnly && list[BestIndex(list)].bw < AudioOnlyBelow) ==>
      && (mode == BestBw ==> r == Some(list[BestIndex(list)]))
      && (mode == RandomBw ==> r == Some(list[GetRandomInt(0, |list| - 1, d.index)]))
      && (mode == BiasedBw && PicksBest(t, GetRandomInt(1, 100, d.choice)) ==>
            r == Some(list[BestIndex(list)]))
      && (mode == BiasedBw && !PicksBest(t, GetRandomInt(1, 100, d.choice)) ==>
            r == Some(list[GetRandomInt(0, |list| - 1, d.index)]))
  {
    if |list| == 0 then None
    else
      var best := list[BestIndex(list)];
      if skipAudioOnly && best.bw < AudioOnlyBelow then None
      else
        var random := list[GetRandomInt(0, |list| - 1, d.index)];
        match mode
        case RandomBw => Some(random)
        case BiasedBw => if PicksBest(t, GetRandomInt(1, 100, d.choice)) then Some(best) else Some(random)
        case BestBw => Some(best)
        case OtherBw(_) => None
  }

  /** Some draw of `Math.random()` makes `getRandomInt(1, 100)` yield 70. */
  lemma SeventyIsDrawn()
    ensures exists k: nat :: k < RandomScale && GetRandomInt(1, 100, k) == 70
  {
    RandomCoversRange(1, 100, 70);
  }

  /** On the draw 70 the two tests part: as written the biased mode takes a random variant,
      as intended the best one. */
  lemma BiasedSeventyDiffers(list: seq<Variant>, d: Draws)
    requires ValidDraws(d) && |list| > 0 && GetRandomInt(1, 100, d.choice) == 70
    ensures SelectQuality(list, BiasedBw, false, d, AsWritten) == Some(list[GetRandomInt(0, |list| - 1, d.index)])
    ensures SelectQuality(list, BiasedBw, false, d, AsIntended) == Some(list[BestIndex(list)])
  {
  }

  /** Under the best mode the selection is never beaten by another variant. */
  lemma BestModeIsMaximal(list: seq<Variant>, d: Draws)
    requires ValidDraws(d) && |list| > 0
    ensures var r := SelectQuality(list, BestBw, false, d, AsWritten);
      r.Some? && forall v :: v in list ==> v.bw <= r.value.bw
  {
  }
}
