/**
 The media-playlist parser of a client (`parseSegmentData` and `setStreamType`
 in attachedstream.js). A playlist is read line by line: content lines become
 segments numbered by a running counter, `#EXTINF` gives the duration of the
 segments that follow, `#EXT-X-TARGETDURATION` the nominal segment duration,
 `#EXT-X-MEDIA-SEQUENCE` resets the counter and `#EXT-X-PLAYLIST-TYPE`
 classifies the stream once (tags of section 4.3 of RFC 8216). Durations are
 integer milliseconds.
 */
module MediaPlaylist {
  import opened Common

  /** Number of segments a client keeps ahead of playback. */
  const BufferSize: nat := 5

  /** Segment duration used when the playlist names none. */
  const DefaultSegmentDurationMs: nat := 1000

  /** Live or on-demand; `Undetermined` until a playlist type has been seen. Only `Live`
      counts as live: an undetermined stream behaves as on-demand everywhere. */
  datatype StreamType = Undetermined | Live | OnDemand

  datatype Segment = Segment(seqno: int, url: string, duration: int)

  // -----------------------------------------------------------------------
  // Line classification

  const ExtInfTag: string := "#EXTINF:"
  const TargetDurationTag: string := "#EXT-X-TARGETDURATION:"
  const MediaSequenceTag: string := "#EXT-X-MEDIA-SEQUENCE:"
  const PlaylistTypeTag: string := "#EXT-X-PLAYLIST-TYPE:"
  const VodTypePrefix: string := "#EXT-X-PLAYLIST-TYPE:VOD"

  /** A segment URI line: it does not start with `#` and holds a word character. */
  predicate IsContentLine(line: string) {
    !StartsWith(line, "#") && HasWordChar(line)
  }

  /** The millisecond value of up to three fractional digits, truncating the rest. */
  function MilliDigits(f: string): (ms: nat)
    requires AllDigits(f)
    ensures ms < 1000
    ensures AllDigits((f + "000")[..3]) && ms == DigitsValue((f + "000")[..3])
  {
    var g := (f + "000")[..3];
    assert g[0] == (if |f| > 0 then f[0] else '0');
    assert g[1] == (if |f| > 1 then f[1] else '0');
    assert g[2] == (if |f| > 2 then f[2] else '0');
    assert DigitsValue(g[..1]) == DigitValue(g[0]) by {
      assert g[..1][..0] == [];
    }
    assert DigitsValue(g[..2]) == DigitValue(g[0]) * 10 + DigitValue(g[1]) by {
      assert g[..2][..1] == g[..1];
    }
    assert g[..3] == g;
    (if |f| > 0 then DigitValue(f[0]) * 100 else 0)
    + (if |f| > 1 then DigitValue(f[1]) * 10 else 0)
    + (if |f| > 2 then DigitValue(f[2]) else 0)
  }

  /** `#EXTINF:<digits>.<digits>`, in milliseconds; a duration without a fractional part
      does not match. */
  function ExtInfMs(line: string): (r: Option<int>)
    ensures r.Some? ==> StartsWith(line, ExtInfTag) && r.value >= 0
  {
    if !StartsWith(line, ExtInfTag) then None
    else
      var rest := line[|ExtInfTag|..];
      var n := DigitRun(rest);
      if n == 0 || n >= |rest| || rest[n] != '.' then None
      else
        var frac := rest[n + 1..];
        var m := DigitRun(frac);
        if m == 0 then None
        else Some(DigitsValue(rest[..n]) * 1000 + MilliDigits(frac[..m]))
  }

  /** The decimal number right after `tag`, if the line starts with `tag` and one follows. */
  function NumberAfter(line: string, tag: string): (r: Option<nat>)
    ensures r.Some? ==> StartsWith(line, tag)
  {
    if !StartsWith(line, tag) then None
    else
      var rest := line[|tag|..];
      var n := DigitRun(rest);
      if n == 0 then None else Some(DigitsValue(rest[..n]))
  }

  /** `#EXT-X-TARGETDURATION:<seconds>`, in milliseconds. */
  function TargetDurationMs(line: string): (r: Option<int>)
    ensures r.Some? ==> StartsWith(line, TargetDurationTag) && r.value >= 0 && r.value % 1000 == 0
  {
    match NumberAfter(line, TargetDurationTag)
    case None => None
    case Some(s) => Some(s * 1000)
  }

  /** `#EXT-X-MEDIA-SEQUENCE:<n>`. */
  function MediaSequence(line: string): (r: Option<int>)
    ensures r.Some? ==> StartsWith(line, MediaSequenceTag) && r.value >= 0
  {
    match NumberAfter(line, MediaSequenceTag)
    case None => None
    case Some(n) => Some(n)
  }

  /** A tag followed by the decimal spelling of `n`, then anything but a digit, reads as
      `n`. */
  lemma NumberAfterReads(tag: string, n: nat, rest: string)
    requires NotDigitLed(rest)
    ensures NumberAfter(tag + DecimalString(n) + rest, tag) == Some(n)
  {
    var line := tag + DecimalString(n) + rest;
    assert line[..|tag|] == tag;
    assert line[|tag|..] == DecimalString(n) + rest;
    ReadsDecimal(n, rest);
  }

  /** `#EXT-X-TARGETDURATION:<n>` gives `n` seconds, in milliseconds. */
  lemma TargetDurationReads(n: nat, rest: string)
    requires NotDigitLed(rest)
    ensures TargetDurationMs(TargetDurationTag + DecimalString(n) + rest) == Some(n * 1000)
  {
    NumberAfterReads(TargetDurationTag, n, rest);
  }

  /** `#EXT-X-MEDIA-SEQUENCE:<n>` gives `n`. */
  lemma MediaSequenceReads(n: nat, rest: string)
    requires NotDigitLed(rest)
    ensures MediaSequence(MediaSequenceTag + DecimalString(n) + rest) == Some(n)
  {
    NumberAfterReads(MediaSequenceTag, n, rest);
  }

  /** `#EXTINF:<n>.<f>` gives `n` seconds and the first three digits of `f` as
      milliseconds. */
  lemma ExtInfReads(n: nat, f: string, rest: string)
    requires |f| > 0 && AllDigits(f) && NotDigitLed(rest)
    ensures ExtInfMs(ExtInfTag + DecimalString(n) + "." + f + rest) == Some(n * 1000 + MilliDigits(f))
  {
    DecimalStringValue(n);
    ExtInfOfDigits(DecimalString(n), f, rest);
  }

  lemma ExtInfOfDigits(a: string, f: string, rest: string)
    requires |a| > 0 && AllDigits(a) && |f| > 0 && AllDigits(f) && NotDigitLed(rest)
    ensures ExtInfMs(ExtInfTag + a + "." + f + rest) == Some(DigitsValue(a) * 1000 + MilliDigits(f))
  {
    var body := a + ("." + (f + rest));
    assert ExtInfTag + a + "." + f + rest == ExtInfTag + body by {
      ConcatAssoc(ExtInfTag + a + ".", f, rest);
      ConcatAssoc(ExtInfTag + a, ".", f + rest);
      ConcatAssoc(ExtInfTag, a, "." + (f + rest));
    }
    ExtInfOfBody(a, f, rest, body);
  }

  lemma ExtInfOfBody(a: string, f: string, rest: string, body: string)
    requires |a| > 0 && AllDigits(a) && |f| > 0 && AllDigits(f) && NotDigitLed(rest)
    requires body == a + ("." + (f + rest))
    ensures ExtInfMs(ExtInfTag + body) == Some(DigitsValue(a) * 1000 + MilliDigits(f))
  {
    var line := ExtInfTag + body;
    assert line[..|ExtInfTag|] == ExtInfTag;
    assert line[|ExtInfTag|..] == body;
    assert DigitRun(body) == |a| && body[..|a|] == a by {
      DigitRunThen(a, "." + (f + rest));
    }
    assert body[|a|] == '.' && body[|a| + 1..] == f + rest;
    assert DigitRun(body[|a| + 1..]) == |f| && body[|a| + 1..][..|f|] == f by {
      DigitRunThen(f, rest);
    }
    var r := line[|ExtInfTag|..];
    assert r[..|a|] == a && r[|a| + 1..][..|f|] == f;
    ExtInfOf(line, a, f);
  }

  lemma ExtInfOf(line: string, a: string, f: string)
    requires StartsWith(line, ExtInfTag) && AllDigits(a) && AllDigits(f)
    requires var r := line[|ExtInfTag|..];
      0 < |a| < |r| && DigitRun(r) == |a| && r[..|a|] == a && r[|a|] == '.'
      && 0 < |f| && DigitRun(r[|a| + 1..]) == |f| && r[|a| + 1..][..|f|] == f
    ensures ExtInfMs(line) == Some(DigitsValue(a) * 1000 + MilliDigits(f))
  {
  }

  /** The word after `#EXT-X-PLAYLIST-TYPE:`. */
  function PlaylistTypeWord(line: string): (r: Option<string>)
    ensures r.Some? ==> StartsWith(line, PlaylistTypeTag) && |r.value| > 0
  {
    if !StartsWith(line, PlaylistTypeTag) then None
    else
      var rest := line[|PlaylistTypeTag|..];
      var n := WordRun(rest);
      if n == 0 then None else Some(rest[..n])
  }

  /** A line whose prefix announces an on-demand playlist. */
  predicate IsVodTypeLine(line: string) {
    StartsWith(line, VodTypePrefix)
  }

  /** `setStreamType`: `VOD` and `EVENT` playlists are not live, every other type is. */
  function Classify(word: string): (t: StreamType)
    ensures t != Undetermined
    ensures t == OnDemand <==> word == "VOD" || word == "EVENT"
  {
    if word == "VOD" || word == "EVENT" then OnDemand else Live
  }

  // -----------------------------------------------------------------------
  // The line-by-line scan

  /** What the scan has gathered so far: the running segment number, the duration the
      next segment gets, the segments kept, the target duration, the classification and
      how many times the classification was contradicted. */
  datatype Scan = Scan(counter: int, pendingDuration: int, kept: seq<Segment>,
                       targetMs: int, streamType: StreamType, conflicts: nat)

  function Start(streamType: StreamType): Scan {
    Scan(0, 0, [], DefaultSegmentDurationMs, streamType, 0)
  }

  /** A segment numbered `seqno` is still to be played when playback has not started
      (`next < 0`) or `seqno` is not behind the next segment to play. */
  predicate Unplayed(next: int, seqno: int) {
    next < 0 || seqno >= next
  }

  /** One line of the playlist, in the order the source tests it. */
  function Step(next: int, st: Scan, line: string): Scan {
    if IsContentLine(line) then
      var keep := if Unplayed(next, st.counter) then [Segment(st.counter, line, st.pendingDuration)] else [];
      st.(kept := st.kept + keep, counter := st.counter + 1)
    else if Unplayed(next, st.counter) && ExtInfMs(line).Some? then
      st.(pendingDuration := ExtInfMs(line).value)
    else if StartsWith(line, "#EXTM") || StartsWith(line, "#EXTI") then
      st
    else
      var t := if PlaylistTypeWord(line).Some? && st.streamType == Undetermined
               then Classify(PlaylistTypeWord(line).value) else st.streamType;
      if TargetDurationMs(line).Some? then st.(streamType := t, targetMs := TargetDurationMs(line).value)
      else if MediaSequence(line).Some? then st.(streamType := t, counter := MediaSequence(line).value)
      else if IsVodTypeLine(line) && t == Live then st.(streamType := t, conflicts := st.conflicts + 1)
      else st.(streamType := t)
  }

  /** The scan after all of `lines`, starting from the stream's current classification. */
  function ScanLines(next: int, init: StreamType, lines: seq<string>): (r: Scan)
    ensures next >= 0 ==> forall i :: 0 <= i < |r.kept| ==> r.kept[i].seqno >= next
    ensures forall i :: 0 <= i < |r.kept| ==> r.kept[i].duration >= 0
    ensures r.pendingDuration >= 0
    ensures r.targetMs >= 0 && r.targetMs % 1000 == 0
    ensures init != Undetermined ==> r.streamType == init
    ensures |r.kept| <= |lines|
    decreases |lines|
  {
    if |lines| == 0 then Start(init)
    else Step(next, ScanLines(next, init, lines[..|lines| - 1]), lines[|lines| - 1])
  }

  /** What `parseSegmentData` leaves behind: the segment list, the segment duration, the
      classification, and how many `abortOrTerminate` calls the parse made. */
  datatype Parsed = Parsed(segments: seq<Segment>, segmentDuration: int, streamType: StreamType,
                           conflicts: nat)

  /** `parseSegmentData`: scan the lines; a started live stream keeps only its first
      `BufferSize` segments. */
  function ParseSegmentData(text: string, next: int, streamType: StreamType): (r: Parsed)
    ensures var scan := ScanLines(next, streamType, Split(text, '\n'));
      && r.segments <= scan.kept
      && (r.streamType == Live && next >= 0 ==> |r.segments| == Min(BufferSize, |scan.kept|))
      && (r.streamType != Live || next < 0 ==> r.segments == scan.kept)
    ensures next >= 0 ==> forall i :: 0 <= i < |r.segments| ==> r.segments[i].seqno >= next
    ensures r.segmentDuration >= 0 && r.segmentDuration % 1000 == 0
    ensures var lines := Split(text, '\n');
      && r.segmentDuration == TargetRef(lines)
      && r.streamType == (if streamType != Undetermined then streamType
                          else match FirstType(lines) case None => Undetermined case Some(w) => Classify(w))
      && r.conflicts == (if r.streamType == Live then VodLineCount(lines) else 0)
  {
    var lines := Split(text, '\n');
    ClassificationAndConflicts(next, streamType, lines);
    ScanTarget(next, streamType, lines);
    var scan := ScanLines(next, streamType, lines);
    var segments := if scan.streamType == Live && next >= 0
                    then scan.kept[..Min(BufferSize, |scan.kept|)] else scan.kept;
    Parsed(segments, scan.targetMs, scan.streamType, scan.conflicts)
  }

  // -----------------------------------------------------------------------
  // Reference definitions, stated over the whole list of lines

  function ContentCount(lines: seq<string>): nat {
    if |lines| == 0 then 0
    else ContentCount(lines[..|lines| - 1]) + (if IsContentLine(lines[|lines| - 1]) then 1 else 0)
  }

  /** Index of the last `#EXT-X-MEDIA-SEQUENCE` line. */
  function LastReset(lines: seq<string>): (r: Option<nat>)
    ensures r.Some? ==> r.value < |lines| && MediaSequence(lines[r.value]).Some?
    ensures r.Some? ==> forall k :: r.value < k < |lines| ==> MediaSequence(lines[k]).None?
    ensures r.None? ==> forall k :: 0 <= k < |lines| ==> MediaSequence(lines[k]).None?
  {
    if |lines| == 0 then None
    else if MediaSequence(lines[|lines| - 1]).Some? then Some(|lines| - 1)
    else LastReset(lines[..|lines| - 1])
  }

  /** The number the next content line after `lines` receives: the last media sequence
      number plus the content lines after it, or the count of content lines when no media
      sequence was given. */
  function Running(lines: seq<string>): int {
    match LastReset(lines)
    case None => ContentCount(lines)
    case Some(j) => MediaSequence(lines[j]).value + ContentCount(lines[j + 1..])
  }

  /** The duration of the last `#EXTINF` line read while the running number was unplayed,
      or 0 when there is none: the duration the next content line receives. */
  function PendingRef(next: int, lines: seq<string>): int {
    if |lines| == 0 then 0
    else
      var p := lines[..|lines| - 1];
      var l := lines[|lines| - 1];
      if Unplayed(next, Running(p)) && ExtInfMs(l).Some? then ExtInfMs(l).value
      else PendingRef(next, p)
  }

  /** The segments a scan keeps, by line: each unplayed content line, numbered by the
      running number before it and timed by the pending duration before it. */
  function KeptRef(next: int, lines: seq<string>): seq<Segment> {
    if |lines| == 0 then []
    else
      var p := lines[..|lines| - 1];
      var l := lines[|lines| - 1];
      KeptRef(next, p)
      + (if IsContentLine(l) && Unplayed(next, Running(p)) then [Segment(Running(p), l, PendingRef(next, p))] else [])
  }

  /** The word of the first `#EXT-X-PLAYLIST-TYPE` line. */
  function FirstType(lines: seq<string>): (r: Option<string>)
    ensures r.None? ==> forall k :: 0 <= k < |lines| ==> PlaylistTypeWord(lines[k]).None?
  {
    if |lines| == 0 then None
    else if PlaylistTypeWord(lines[0]).Some? then PlaylistTypeWord(lines[0])
    else FirstType(lines[1..])
  }

  /** The duration the last `#EXT-X-TARGETDURATION` line gives, or the default when there is
      none. */
  function TargetRef(lines: seq<string>): int {
    if |lines| == 0 then DefaultSegmentDurationMs
    else if TargetDurationMs(lines[|lines| - 1]).Some? then TargetDurationMs(lines[|lines| - 1]).value
    else TargetRef(lines[..|lines| - 1])
  }

  function VodLineCount(lines: seq<string>): nat {
    if |lines| == 0 then 0
    else VodLineCount(lines[..|lines| - 1]) + (if IsVodTypeLine(lines[|lines| - 1]) then 1 else 0)
  }

  // -----------------------------------------------------------------------
  // Which branch a tag line takes

  lemma MediaSequenceLineIsMeta(line: string)
    requires StartsWith(line, MediaSequenceTag)
    ensures !IsContentLine(line) && ExtInfMs(line).None?
    ensures !StartsWith(line, "#EXTM") && !StartsWith(line, "#EXTI")
    ensures TargetDurationMs(line).None?
  {
    assert line[0] == '#' && line[4] == '-';
  }

  lemma TypeLineIsMeta(line: string)
    requires StartsWith(line, PlaylistTypeTag)
    ensures !IsContentLine(line) && ExtInfMs(line).None?
    ensures !StartsWith(line, "#EXTM") && !StartsWith(line, "#EXTI")
    ensures TargetDurationMs(line).None? && MediaSequence(line).None?
  {
    assert line[0] == '#' && line[4] == '-';
    TypeLineIsNoNumber(line);
  }

  lemma TypeLineIsNoNumber(line: string)
    requires StartsWith(line, PlaylistTypeTag)
    ensures NumberAfter(line, TargetDurationTag).None? && NumberAfter(line, MediaSequenceTag).None?
  {
    assert line[7] == 'P';
  }

  lemma VodLineIsTypeLine(line: string)
    requires IsVodTypeLine(line)
    ensures PlaylistTypeWord(line).Some?
    ensures StartsWith(line, PlaylistTypeTag)
  {
    assert line[..|PlaylistTypeTag|] == VodTypePrefix[..|PlaylistTypeTag|];
    var rest := line[|PlaylistTypeTag|..];
    assert rest[0] == 'V';
  }

  /** How one line moves the running number: content lines add one, a media sequence tag
      sets it, nothing else touches it. */
  lemma StepCounter(next: int, st: Scan, line: string)
    ensures Step(next, st, line).counter ==
      if IsContentLine(line) then st.counter + 1
      else if MediaSequence(line).Some? then MediaSequence(line).value
      else st.counter
  {
    if MediaSequence(line).Some? {
      MediaSequenceLineIsMeta(line);
    }
  }

  lemma RunningSnoc(p: seq<string>, l: string)
    ensures Running(p + [l]) ==
      if IsContentLine(l) then Running(p) + 1
      else if MediaSequence(l).Some? then MediaSequence(l).value
      else Running(p)
  {
    var lines := p + [l];
    assert lines[..|lines| - 1] == p;
    if MediaSequence(l).Some? {
      MediaSequenceLineIsMeta(l);
      assert lines[|lines|..] == [];
    } else {
      match LastReset(p)
      case None =>
      case Some(j) =>
        assert lines[j + 1..] == p[j + 1..] + [l];
        assert (p[j + 1..] + [l])[..|p[j + 1..]|] == p[j + 1..];
    }
  }

  /** The running number of a scan is the closed form `Running`. */
  lemma {:induction false} ScanCounter(next: int, init: StreamType, lines: seq<string>)
    ensures ScanLines(next, init, lines).counter == Running(lines)
    decreases |lines|
  {
    if |lines| > 0 {
      var p := lines[..|lines| - 1];
      var l := lines[|lines| - 1];
      ScanCounter(next, init, p);
      StepCounter(next, ScanLines(next, init, p), l);
      assert lines == p + [l];
      RunningSnoc(p, l);
    }
  }

  /** The segments a scan keeps are exactly the content lines that were unplayed when they
      were read, each numbered with the running number at its line, carrying the line as its
      URI and the duration of the last `#EXTINF` line read while unplayed. */
  lemma {:induction false} KeptMatchesReference(next: int, init: StreamType, lines: seq<string>)
    ensures ScanLines(next, init, lines).kept == KeptRef(next, lines)
    decreases |lines|
  {
    if |lines| > 0 {
      var p := lines[..|lines| - 1];
      var l := lines[|lines| - 1];
      var st := ScanLines(next, init, p);
      KeptMatchesReference(next, init, p);
      ScanCounter(next, init, p);
      ScanPending(next, init, p);
      StepKept(next, st, l);
    }
  }

  /** How one line changes the kept segments. */
  lemma StepKept(next: int, st: Scan, line: string)
    ensures Step(next, st, line).kept == st.kept +
      (if IsContentLine(line) && Unplayed(next, st.counter)
       then [Segment(st.counter, line, st.pendingDuration)] else [])
  {
  }

  /** How one line changes the pending duration: only an `#EXTINF` line read while the
      running number is unplayed sets it. */
  lemma StepPending(next: int, st: Scan, line: string)
    ensures Step(next, st, line).pendingDuration ==
      if Unplayed(next, st.counter) && ExtInfMs(line).Some? then ExtInfMs(line).value
      else st.pendingDuration
  {
    if ExtInfMs(line).Some? {
      assert line[0] == '#';
    }
  }

  /** The pending duration of a scan is the closed form `PendingRef`. */
  lemma {:induction false} ScanPending(next: int, init: StreamType, lines: seq<string>)
    ensures ScanLines(next, init, lines).pendingDuration == PendingRef(next, lines)
    decreases |lines|
  {
    if |lines| > 0 {
      var p := lines[..|lines| - 1];
      ScanPending(next, init, p);
      ScanCounter(next, init, p);
      StepPending(next, ScanLines(next, init, p), lines[|lines| - 1]);
    }
  }

  /** Before playback starts every content line becomes a segment. */
  lemma {:induction false} NotStartedKeepsAll(init: StreamType, lines: seq<string>)
    ensures |ScanLines(-1, init, lines).kept| == ContentCount(lines)
    decreases |lines|
  {
    if |lines| > 0 {
      NotStartedKeepsAll(init, lines[..|lines| - 1]);
    }
  }

  lemma {:induction false} FirstTypeSnoc(p: seq<string>, l: string)
    ensures FirstType(p + [l]) == if FirstType(p).Some? then FirstType(p) else PlaylistTypeWord(l)
    decreases |p|
  {
    if |p| == 0 {
      assert FirstType([l][1..]) == None;
    } else {
      assert (p + [l])[1..] == p[1..] + [l];
      FirstTypeSnoc(p[1..], l);
    }
  }

  lemma StepTypeAndConflicts(next: int, st: Scan, line: string)
    ensures var t := if PlaylistTypeWord(line).Some? && st.streamType == Undetermined
                     then Classify(PlaylistTypeWord(line).value) else st.streamType;
      && Step(next, st, line).streamType == t
      && Step(next, st, line).conflicts == st.conflicts + (if IsVodTypeLine(line) && t == Live then 1 else 0)
  {
    if IsVodTypeLine(line) {
      VodLineIsTypeLine(line);
    }
    if PlaylistTypeWord(line).Some? {
      TypeLineIsMeta(line);
    }
  }

  /** The stream is classified once, by the first playlist type line, and only if it was not
      classified before; and the classification is contradicted once per on-demand type line
      exactly when the stream ends up live. */
  lemma {:induction false} ClassificationAndConflicts(next: int, init: StreamType, lines: seq<string>)
    ensures ScanLines(next, init, lines).streamType ==
      if init != Undetermined then init
      else match FirstType(lines) case None => Undetermined case Some(w) => Classify(w)
    ensures ScanLines(next, init, lines).conflicts ==
      if ScanLines(next, init, lines).streamType == Live then VodLineCount(lines) else 0
    ensures ScanLines(next, init, lines).streamType == Undetermined ==> VodLineCount(lines) == 0
    decreases |lines|
  {
    if |lines| > 0 {
      var p := lines[..|lines| - 1];
      var l := lines[|lines| - 1];
      assert lines == p + [l];
      ClassificationAndConflicts(next, init, p);
      StepTypeAndConflicts(next, ScanLines(next, init, p), l);
      FirstTypeSnoc(p, l);
      if IsVodTypeLine(l) {
        VodLineIsTypeLine(l);
      }
    }
  }

  /** A stream already classified on-demand is never contradicted; one already classified
      live is contradicted exactly when an on-demand type line appears. */
  lemma ConflictOnlyWhenLive(next: int, lines: seq<string>)
    ensures ScanLines(next, OnDemand, lines).conflicts == 0
    ensures ScanLines(next, Live, lines).conflicts > 0 <==> exists k :: 0 <= k < |lines| && IsVodTypeLine(lines[k])
  {
    ClassificationAndConflicts(next, OnDemand, lines);
    ClassificationAndConflicts(next, Live, lines);
    VodCountPositive(lines);
  }

  lemma {:induction false} VodCountPositive(lines: seq<string>)
    ensures VodLineCount(lines) > 0 <==> exists k :: 0 <= k < |lines| && IsVodTypeLine(lines[k])
    decreases |lines|
  {
    if |lines| > 0 {
      var p := lines[..|lines| - 1];
      VodCountPositive(p);
      if exists k :: 0 <= k < |lines| && IsVodTypeLine(lines[k]) {
        var k :| 0 <= k < |lines| && IsVodTypeLine(lines[k]);
        if k < |p| {
          assert IsVodTypeLine(p[k]);
        }
      }
      if exists k :: 0 <= k < |p| && IsVodTypeLine(p[k]) {
        var k :| 0 <= k < |p| && IsVodTypeLine(p[k]);
        assert IsVodTypeLine(lines[k]);
      }
    }
  }

  // -----------------------------------------------------------------------
  // A worked example

  lemma InfLine(d: char, ms: nat)
    requires d == '0' || d == '5'
    requires ms == if d == '0' then 2000 else 2500
    ensures ExtInfMs("#EXTINF:2." + [d] + "00,") == Some(ms)
  {
    var line := "#EXTINF:2." + [d] + "00,";
    assert line[..|ExtInfTag|] == ExtInfTag;
    var rest := line[|ExtInfTag|..];
    assert rest == "2." + [d] + "00,";
    assert DigitRun(rest) == 1;
    assert rest[..1] == "2";
    assert DigitsValue("2") == 2 by { assert "2"[..0] == ""; }
    var frac := rest[2..];
    assert frac == [d] + "00,";
    assert frac[1..] == "00,";
    assert "00,"[1..] == "0,";
    assert "0,"[1..] == ",";
    assert DigitRun(",") == 0;
    assert DigitRun(frac) == 3;
    assert frac[..3] == [d] + "00";
  }

  lemma StepInf(s: Scan, d: char, ms: nat)
    requires d == '0' || d == '5'
    requires ms == if d == '0' then 2000 else 2500
    ensures Step(-1, s, "#EXTINF:2." + [d] + "00,") == s.(pendingDuration := ms)
  {
    InfLine(d, ms);
    assert ("#EXTINF:2." + [d] + "00,")[0] == '#';
  }

  lemma StepHeader(s: Scan)
    ensures Step(-1, s, "#EXTM3U") == s
  {
    assert "#EXTM3U"[..5] == "#EXTM";
    assert "#EXTM3U"[0] == '#';
  }

  lemma TargetLine(line: string)
    requires line == "#EXT-X-TARGETDURATION:2"
    ensures TargetDurationMs(line) == Some(2000)
  {
    assert line[..|TargetDurationTag|] == TargetDurationTag;
    var rest := line[|TargetDurationTag|..];
    assert rest == "2";
    assert rest[..1] == "2";
    assert DigitsValue("2") == 2 by { assert "2"[..0] == ""; }
  }

  lemma StepTarget(s: Scan)
    ensures Step(-1, s, "#EXT-X-TARGETDURATION:2") == s.(targetMs := 2000)
  {
    var line := "#EXT-X-TARGETDURATION:2";
    TargetLine(line);
    TagLineIsMeta(line, TargetDurationTag);
    assert !StartsWith(line, PlaylistTypeTag) by { assert line[7] == 'T'; }
  }

  /** The scan's segment duration is the one the last target-duration line gives. */
  lemma {:induction false} ScanTarget(next: int, init: StreamType, lines: seq<string>)
    ensures ScanLines(next, init, lines).targetMs == TargetRef(lines)
    decreases |lines|
  {
    if |lines| > 0 {
      var l := lines[|lines| - 1];
      ScanTarget(next, init, lines[..|lines| - 1]);
      if TargetDurationMs(l).Some? {
        TagLineIsMeta(l, TargetDurationTag);
      }
    }
  }

  /** A line starting with one of the `#EXT-X-` tags reaches the metadata branch. */
  lemma TagLineIsMeta(line: string, tag: string)
    requires |tag| >= 5 && tag[..5] == "#EXT-"
    requires StartsWith(line, tag)
    ensures !IsContentLine(line) && ExtInfMs(line).None?
    ensures !StartsWith(line, "#EXTM") && !StartsWith(line, "#EXTI")
  {
    assert line[..5] == tag[..5];
    assert line[0] == '#' && line[4] == '-';
  }

  lemma SequenceLine(line: string)
    requires line == "#EXT-X-MEDIA-SEQUENCE:7"
    ensures MediaSequence(line) == Some(7)
  {
    assert line[..|MediaSequenceTag|] == MediaSequenceTag;
    var rest := line[|MediaSequenceTag|..];
    assert rest == "7";
    assert rest[..1] == "7";
    assert DigitsValue("7") == 7 by { assert "7"[..0] == ""; }
  }

  lemma StepSequence(s: Scan)
    ensures Step(-1, s, "#EXT-X-MEDIA-SEQUENCE:7") == s.(counter := 7)
  {
    SequenceLine("#EXT-X-MEDIA-SEQUENCE:7");
    StepReset(-1, s, "#EXT-X-MEDIA-SEQUENCE:7");
  }

  /** A media sequence line sets the running number and nothing else. */
  lemma StepReset(next: int, s: Scan, line: string)
    requires MediaSequence(line).Some?
    ensures Step(next, s, line) == s.(counter := MediaSequence(line).value)
  {
    MediaSequenceLineIsMeta(line);
    assert !StartsWith(line, PlaylistTypeTag) by { assert line[7] == 'M'; }
  }

  lemma StepContent(s: Scan, url: string)
    requires url == "a.ts" || url == "b.ts"
    ensures Step(-1, s, url) == s.(kept := s.kept + [Segment(s.counter, url, s.pendingDuration)], counter := s.counter + 1)
  {
    assert IsWordChar(url[0]);
  }

  lemma ScanSnoc(next: int, init: StreamType, p: seq<string>, l: string, q: seq<string>)
    requires q == p + [l]
    ensures ScanLines(next, init, q) == Step(next, ScanLines(next, init, p), l)
  {
    assert q[..|p|] == p;
  }

  const SampleLines: seq<string> :=
    ["#EXTM3U", "#EXT-X-TARGETDURATION:2", "#EXT-X-MEDIA-SEQUENCE:7", "#EXTINF:2.000,", "a.ts", "#EXTINF:2.500,", "b.ts"]

  /** The first four lines of the example set the target duration, the media sequence
      number and the pending duration, and keep nothing. */
  lemma SampleHead(lines: seq<string>)
    requires lines == SampleLines[..4]
    ensures ScanLines(-1, Undetermined, lines)
         == Start(Undetermined).(targetMs := 2000, counter := 7, pendingDuration := 2000)
  {
    var l0, l1, l2, l3 := lines[0], lines[1], lines[2], lines[3];
    assert l3 == "#EXTINF:2." + ['0'] + "00,";
    var s0 := Start(Undetermined);
    var p0: seq<string> := [];
    assert ScanLines(-1, Undetermined, p0) == s0;
    var p1 := [l0];
    ScanSnoc(-1, Undetermined, p0, l0, p1);
    StepHeader(s0);
    var p2 := [l0, l1];
    ScanSnoc(-1, Undetermined, p1, l1, p2);
    StepTarget(s0);
    var s2 := s0.(targetMs := 2000);
    var p3 := [l0, l1, l2];
    ScanSnoc(-1, Undetermined, p2, l2, p3);
    StepSequence(s2);
    var s3 := s2.(counter := 7);
    ScanSnoc(-1, Undetermined, p3, l3, lines);
    StepInf(s3, '0', 2000);
  }

  /** A short untyped playlist read before playback: the media sequence number 7 numbers
      the first segment, each segment takes the duration of the `#EXTINF` before it, and the
      target duration is two seconds. */
  lemma SamplePlaylist(lines: seq<string>)
    requires lines == SampleLines
    ensures ScanLines(-1, Undetermined, lines).kept == [Segment(7, "a.ts", 2000), Segment(8, "b.ts", 2500)]
    ensures ScanLines(-1, Undetermined, lines).targetMs == 2000
  {
    var l4, l5, l6 := lines[4], lines[5], lines[6];
    assert l5 == "#EXTINF:2." + ['5'] + "00,";
    SampleHead(lines[..4]);
    var s4 := Start(Undetermined).(targetMs := 2000, counter := 7, pendingDuration := 2000);
    ScanSnoc(-1, Undetermined, lines[..4], l4, lines[..5]);
    StepContent(s4, l4);
    var s5 := s4.(kept := [Segment(7, l4, 2000)], counter := 8);
    assert ScanLines(-1, Undetermined, lines[..5]) == s5;
    ScanSnoc(-1, Undetermined, lines[..5], l5, lines[..6]);
    StepInf(s5, '5', 2500);
    var s6 := s5.(pendingDuration := 2500);
    assert ScanLines(-1, Undetermined, lines[..6]) == s6;
    ScanSnoc(-1, Undetermined, lines[..6], l6, lines);
    StepContent(s6, l6);
    var kept := [Segment(7, l4, 2000), Segment(8, l6, 2500)];
    assert ScanLines(-1, Undetermined, lines) == s6.(kept := kept, counter := 9);
    assert l4 == "a.ts" && l6 == "b.ts";
  }
}
