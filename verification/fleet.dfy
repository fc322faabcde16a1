/**
 The fleet manager (streammanager.js, class `StreamManager`): admission of new
 clients, the bookkeeping of unattached and attached clients and their
 counters, reactions to what clients report (including the kill sweep under
 overload), the dynamic ceiling, and the resume watermark. Every handler is a
 pure function from the fleet state to a new state and a list of actions;
 `Exit` stands for the process ending (`process.exit` or an uncaught error).
 */
module Fleet {
  import opened Common
  import opened ScsHelpers
  import Cooloff
  import Stats
  import Quality

  const MaxStreamsCooloff: int := 3
  const KillStreamsCooloff: int := 2
  const SlownessCooloff: int := 2

  /** Seconds between dynamic start attempts, after and before trouble was seen. */
  const NewClientIntervalSecs: int := 25
  const NewClientRampIntervalSecs: int := 10

  const HdsSuffix: string := ".f4m"

  /** An attached client as the manager sees it: its id and its line in the URL file. */
  datatype Peer = Peer(id: int, lineNumber: int)

  /** The command-line settings the manager consults. `killPct` is the `-k` percentage. */
  datatype Config = Config(dynamic: bool, killPct: int, streamPath: string, protocol: string,
                           streamHost: string, resumeFile: bool)

  datatype Fleet = Fleet(
    /** `attachedStreams` and `streams`, which always have the same keys, in ascending id
        order (the order in which the source enumerates integer keys). */
    attached: seq<Peer>,
    unattached: set<int>,
    /** The clients whose `isTerminated` the manager has set. */
    terminated: set<int>,
    nStreams: int,
    nUnattached: int,
    maxStreams: int,
    urls: seq<string>,
    nSkippedLines: nat,
    serialNo: int,
    oldestLiving: int,
    haveSeenSlowness: bool,
    haveSeenOverload: bool,
    utilizationOK: bool,
    maxStreamsGate: Cooloff.Gate,
    killGate: Cooloff.Gate,
    slownessGate: Cooloff.Gate,
    stats: Stats.Table)

  datatype Action =
    | CreateClient(id: int, lineNumber: int, url: string)
    | KillClient(id: int)
    | WriteResumeState(lineNumber: int)
    | Exit

  datatype Reaction = Reaction(fleet: Fleet, actions: seq<Action>)

  predicate Exited(r: Reaction) {
    Exit in r.actions
  }

  // -----------------------------------------------------------------------
  // Attached clients, in ascending id order

  function Ids(ps: seq<Peer>): (r: seq<int>)
    ensures |r| == |ps|
    ensures forall k :: 0 <= k < |ps| ==> r[k] == ps[k].id
  {
    if |ps| == 0 then [] else [ps[0].id] + Ids(ps[1..])
  }

  predicate StrictlyAscending(s: seq<int>) {
    forall i, j :: 0 <= i < j < |s| ==> s[i] < s[j]
  }

  lemma IdsCons(a: Peer, ps: seq<Peer>)
    ensures Ids([a] + ps) == [a.id] + Ids(ps)
  {
    assert ([a] + ps)[1..] == ps;
  }

  lemma AscendingCons(h: int, t: seq<int>)
    requires StrictlyAscending(t) && forall x :: x in t ==> h < x
    ensures StrictlyAscending([h] + t)
  {
    forall i, j | 0 <= i < j < |[h] + t| ensures ([h] + t)[i] < ([h] + t)[j] {
      assert ([h] + t)[j] == t[j - 1];
      if i > 0 {
        assert ([h] + t)[i] == t[i - 1];
      } else {
        assert t[j - 1] in t;
      }
    }
  }

  lemma AscendingTail(s: seq<int>)
    requires StrictlyAscending(s) && |s| > 0
    ensures StrictlyAscending(s[1..])
    ensures forall x :: x in s[1..] ==> s[0] < x
  {
    forall x | x in s[1..] ensures s[0] < x {
      var k :| 0 <= k < |s[1..]| && s[1..][k] == x;
      assert s[k + 1] == x;
    }
  }

  /** Record `p` in its place; a client with the same id is replaced. */
  function InsertPeer(ps: seq<Peer>, p: Peer): (r: seq<Peer>)
    requires StrictlyAscending(Ids(ps))
    ensures StrictlyAscending(Ids(r))
    ensures forall x :: x in Ids(r) <==> x in Ids(ps) || x == p.id
    ensures p.id !in Ids(ps) ==> |r| == |ps| + 1
    ensures p in r
  {
    if |ps| == 0 then [p]
    else
      assert Ids(ps) == [ps[0].id] + Ids(ps[1..]);
      AscendingTail(Ids(ps));
      if p.id < ps[0].id then
        IdsCons(p, ps);
        AscendingCons(p.id, Ids(ps));
        [p] + ps
      else if p.id == ps[0].id then
        IdsCons(p, ps[1..]);
        AscendingCons(p.id, Ids(ps[1..]));
        [p] + ps[1..]
      else
        var rest := InsertPeer(ps[1..], p);
        IdsCons(ps[0], rest);
        AscendingCons(ps[0].id, Ids(rest));
        [ps[0]] + rest
  }

  /** Forget client `id`. */
  function RemovePeer(ps: seq<Peer>, id: int): (r: seq<Peer>)
    requires StrictlyAscending(Ids(ps))
    ensures StrictlyAscending(Ids(r))
    ensures forall x :: x in Ids(r) <==> x in Ids(ps) && x != id
    ensures id in Ids(ps) ==> |r| == |ps| - 1
    ensures forall q :: q in r ==> q in ps
  {
    if |ps| == 0 then []
    else
      assert Ids(ps) == [ps[0].id] + Ids(ps[1..]);
      AscendingTail(Ids(ps));
      if ps[0].id == id then ps[1..]
      else
        var rest := RemovePeer(ps[1..], id);
        IdsCons(ps[0], rest);
        AscendingCons(ps[0].id, Ids(rest));
        [ps[0]] + rest
  }

  // -----------------------------------------------------------------------
  // The bookkeeping invariant

  /** The counters agree with the id records; no id is both attached and unattached or
      attached after its end; every id was handed out. */
  predicate Valid(f: Fleet) {
    && f.nStreams == |f.attached|
    && f.nUnattached == |f.unattached|
    && StrictlyAscending(Ids(f.attached))
    && (forall x :: x in Ids(f.attached) ==> x <= f.serialNo && x !in f.unattached && x !in f.terminated)
    && (forall x :: x in f.unattached ==> x <= f.serialNo && x !in f.terminated)
    && (forall x :: x in f.terminated ==> x <= f.serialNo)
    && Cooloff.Valid(f.maxStreamsGate) && Cooloff.Valid(f.killGate) && Cooloff.Valid(f.slownessGate)
  }

  /** The manager as constructed and given its URL file: no clients, three open gates, and
      the first `skipUrls` lines skipped (their count becomes the serial number). */
  function New(maxStreams: int, urlFile: string, skipUrls: int): (f: Fleet)
    ensures Valid(f)
    ensures f.nStreams == 0 && f.nUnattached == 0 && f.maxStreams == maxStreams
    ensures skipUrls > 0 ==> f.serialNo == skipUrls && f.urls == JsSlice(Split(urlFile, '\n'), skipUrls, |Split(urlFile, '\n')|)
    ensures skipUrls <= 0 ==> f.serialNo == 0 && f.urls == Split(urlFile, '\n')
  {
    var lines := Split(urlFile, '\n');
    Fleet([], {}, {}, 0, 0, maxStreams,
          if skipUrls > 0 then JsSlice(lines, skipUrls, |lines|) else lines,
          0, if skipUrls > 0 then skipUrls else 0, 0, false, false, true,
          Cooloff.New(MaxStreamsCooloff), Cooloff.New(KillStreamsCooloff),
          Cooloff.New(SlownessCooloff), Stats.Empty())
  }

  // -----------------------------------------------------------------------
  // Starting clients

  /** `prepareUrl`: a line starting with `/` is a path on the configured host. */
  function PrepareUrl(url: string, cfg: Config): (r: string)
    ensures |url| > 0 && url[0] == '/' ==> r == cfg.protocol + SchemeSep + cfg.streamHost + url
    ensures !(|url| > 0 && url[0] == '/') ==> r == url
  {
    if IndexOf(url, '/') == Some(0) then cfg.protocol + SchemeSep + cfg.streamHost + url else url
  }

  /** A prepared URL is prepared already: with a protocol that does not start with `/`,
      preparing twice is preparing once. */
  lemma PrepareUrlIdempotent(url: string, cfg: Config)
    requires |cfg.protocol| > 0 && cfg.protocol[0] != '/'
    ensures PrepareUrl(PrepareUrl(url, cfg), cfg) == PrepareUrl(url, cfg)
  {
  }

  predicate EndsWith(s: string, suffix: string) {
    |suffix| <= |s| && s[|s| - |suffix|..] == suffix
  }

  /** `startAStream`: nothing when the fleet is at its ceiling or the server is
      overloaded. Otherwise take the configured stream path or the next line of the URL
      file; an empty line (or none left) stops. An HDS manifest (`.f4m`) is skipped and
      counted, and the next line tried; with a fixed stream path that recursion never
      ends and the process dies. Otherwise a client with the next serial number is
      created, unattached. */
  function StartAStream(f: Fleet, cfg: Config): (r: Reaction)
    ensures f.nStreams + f.nUnattached >= f.maxStreams || !f.utilizationOK ==> r == Reaction(f, [])
    ensures |r.actions| <= 1
    ensures r.fleet == f.(urls := r.fleet.urls, nSkippedLines := r.fleet.nSkippedLines,
                          serialNo := r.fleet.serialNo, nUnattached := r.fleet.nUnattached,
                          unattached := r.fleet.unattached)
    ensures r.actions != [] && r.actions[0].CreateClient? ==>
      && r.actions[0].id == r.fleet.serialNo == f.serialNo + 1
      && r.fleet.unattached == f.unattached + {r.actions[0].id}
      && r.fleet.nUnattached == f.nUnattached + 1
      && !EndsWith(r.actions[0].url, HdsSuffix)
    ensures !(r.actions != [] && r.actions[0].CreateClient?) ==>
      r.fleet.unattached == f.unattached && r.fleet.nUnattached == f.nUnattached
      && r.fleet.serialNo == f.serialNo
    ensures cfg.streamPath == "" && f.urls == [] ==> r.actions == []
    ensures Exited(r) ==> cfg.streamPath != "" && EndsWith(PrepareUrl(cfg.streamPath, cfg), HdsSuffix)
    decreases |f.urls|
  {
    if f.nStreams + f.nUnattached >= f.maxStreams || !f.utilizationOK then Reaction(f, [])
    else
      var raw := if cfg.streamPath != "" then cfg.streamPath else if |f.urls| == 0 then "" else f.urls[0];
      var rest := if cfg.streamPath != "" || |f.urls| == 0 then f.urls else f.urls[1..];
      var f1 := f.(urls := rest);
      if raw == "" then Reaction(f1, [])
      else
        var url := PrepareUrl(raw, cfg);
        if EndsWith(url, HdsSuffix) then
          var f2 := f1.(nSkippedLines := f1.nSkippedLines + 1);
          if cfg.streamPath != "" then Reaction(f2, [Exit]) else StartAStream(f2, cfg)
        else
          var id := f1.serialNo + 1;
          Reaction(f1.(serialNo := id, nUnattached := f1.nUnattached + 1,
                       unattached := f1.unattached + {id}),
                   [CreateClient(id, id + f1.nSkippedLines - 1, url)])
  }

  /** How many lines at the head of `urls` name HDS manifests, which admission skips. */
  function HdsRun(urls: seq<string>, cfg: Config): (n: nat)
    ensures n <= |urls|
    ensures forall k :: 0 <= k < n ==> EndsWith(PrepareUrl(urls[k], cfg), HdsSuffix)
    ensures n < |urls| ==> !EndsWith(PrepareUrl(urls[n], cfg), HdsSuffix)
  {
    if |urls| == 0 || !EndsWith(PrepareUrl(urls[0], cfg), HdsSuffix) then 0
    else 1 + HdsRun(urls[1..], cfg)
  }

  /** The client an admission with room creates: its URL, and how many HDS lines are
      skipped on the way to it. `None` when there is nothing to start from. */
  function Candidate(f: Fleet, cfg: Config): Option<(string, nat)> {
    if cfg.streamPath != "" then
      if EndsWith(PrepareUrl(cfg.streamPath, cfg), HdsSuffix) then None
      else Some((PrepareUrl(cfg.streamPath, cfg), 0))
    else
      var i := HdsRun(f.urls, cfg);
      if i < |f.urls| && f.urls[i] != "" then Some((PrepareUrl(f.urls[i], cfg), i)) else None
  }

  /** With room and no overload, admission creates the candidate client: the next serial
      number, its line in the URL file counting the skipped HDS lines, and its prepared URL;
      the URL file loses the lines read. Without a candidate nothing is created. */
  lemma StartAStreamCreates(f: Fleet, cfg: Config)
    requires f.nStreams + f.nUnattached < f.maxStreams && f.utilizationOK
    ensures CreatesCandidate(f, cfg, StartAStream(f, cfg))
  {
    if cfg.streamPath == "" {
      StartFromFileCreates(f, cfg);
    }
  }

  /** `r` is what admission with room does: it creates the candidate, or nothing without
      one. */
  predicate CreatesCandidate(f: Fleet, cfg: Config, r: Reaction) {
    CreatesFrom(f, cfg.streamPath != "", Candidate(f, cfg), r)
  }

  /** `r` creates the client `c` names, reading it from the stream path or from the URL
      file, or creates nothing when `c` is `None`. */
  predicate CreatesFrom(f: Fleet, fromPath: bool, c: Option<(string, nat)>, r: Reaction) {
    && (c.Some? ==>
          && r.actions == [CreateClient(f.serialNo + 1, f.serialNo + f.nSkippedLines + c.value.1, c.value.0)]
          && r.fleet.unattached == f.unattached + {f.serialNo + 1}
          && r.fleet.nSkippedLines == f.nSkippedLines + c.value.1
          && r.fleet.urls == (if fromPath then f.urls else if c.value.1 < |f.urls| then f.urls[c.value.1 + 1..] else []))
    && (c.None? ==> !Creates(r.actions))
  }

  /** Reading one line further down the URL file shifts the created client's line by one. */
  lemma ShiftCreates(f: Fleet, f2: Fleet, c: Option<(string, nat)>, c2: Option<(string, nat)>, r: Reaction)
    requires |f.urls| > 0 && f2 == f.(urls := f.urls[1..], nSkippedLines := f.nSkippedLines + 1)
    requires CreatesFrom(f2, false, c2, r)
    requires c2.Some? ==> c == Some((c2.value.0, c2.value.1 + 1))
    requires c2.None? ==> c.None?
    ensures CreatesFrom(f, false, c, r)
  {
    if c2.Some? && c2.value.1 < |f2.urls| {
      assert f2.urls[c2.value.1 + 1..] == f.urls[c2.value.1 + 2..];
    }
  }

  lemma {:induction false} StartFromFileCreates(f: Fleet, cfg: Config)
    requires f.nStreams + f.nUnattached < f.maxStreams && f.utilizationOK && cfg.streamPath == ""
    ensures CreatesCandidate(f, cfg, StartAStream(f, cfg))
    decreases |f.urls|
  {
    if |f.urls| == 0 || f.urls[0] == "" {
      assert HdsRun(f.urls, cfg) == 0 by {
        if |f.urls| > 0 {
          assert !EndsWith(PrepareUrl(f.urls[0], cfg), HdsSuffix);
        }
      }
    } else if EndsWith(PrepareUrl(f.urls[0], cfg), HdsSuffix) {
      var f2 := f.(urls := f.urls[1..], nSkippedLines := f.nSkippedLines + 1);
      StartFromFileCreates(f2, cfg);
      SkipHdsCreates(f, cfg);
    } else {
      assert HdsRun(f.urls, cfg) == 0;
    }
  }

  /** The recursive step: what admission does after skipping a leading HDS line it does
      from the line after it. */
  lemma {:induction false} SkipHdsCreates(f: Fleet, cfg: Config)
    requires f.nStreams + f.nUnattached < f.maxStreams && f.utilizationOK && cfg.streamPath == ""
    requires |f.urls| > 0 && f.urls[0] != "" && EndsWith(PrepareUrl(f.urls[0], cfg), HdsSuffix)
    requires var f2 := f.(urls := f.urls[1..], nSkippedLines := f.nSkippedLines + 1);
      CreatesCandidate(f2, cfg, StartAStream(f2, cfg))
    ensures CreatesCandidate(f, cfg, StartAStream(f, cfg))
  {
    var f2 := f.(urls := f.urls[1..], nSkippedLines := f.nSkippedLines + 1);
    var r := StartAStream(f, cfg);
    assert r == StartAStream(f2, cfg) by {
      assert f.(urls := f.urls[1..]).(nSkippedLines := f.nSkippedLines + 1) == f2;
    }
    var c2 := Candidate(f2, cfg);
    var c := Candidate(f, cfg);
    assert CreatesFrom(f2, false, c2, r);
    assert (c2.Some? ==> c == Some((c2.value.0, c2.value.1 + 1))) && (c2.None? ==> c.None?)
      by { CandidateAfterHds(f, cfg); }
    ShiftCreates(f, f2, c, c2, r);
  }

  /** Skipping a leading HDS line moves the candidate one line closer. */
  lemma {:induction false} CandidateAfterHds(f: Fleet, cfg: Config)
    requires cfg.streamPath == "" && |f.urls| > 0 && EndsWith(PrepareUrl(f.urls[0], cfg), HdsSuffix)
    ensures var f2 := f.(urls := f.urls[1..], nSkippedLines := f.nSkippedLines + 1);
      var c := Candidate(f2, cfg);
      && (c.Some? ==> Candidate(f, cfg) == Some((c.value.0, c.value.1 + 1)))
      && (c.None? ==> Candidate(f, cfg).None?)
  {
    var f2 := f.(urls := f.urls[1..], nSkippedLines := f.nSkippedLines + 1);
    var u, i := f.urls, HdsRun(f.urls[1..], cfg);
    assert Candidate(f2, cfg) == if i < |u| - 1 && u[i + 1] != "" then Some((PrepareUrl(u[i + 1], cfg), i)) else None by {
      assert i < |u| - 1 ==> u[1..][i] == u[i + 1];
    }
    assert Candidate(f, cfg) == if i + 1 < |u| && u[i + 1] != "" then Some((PrepareUrl(u[i + 1], cfg), i + 1)) else None by {
      assert HdsRun(u, cfg) == 1 + i;
    }
  }

  /** Admission never lets the fleet grow past its ceiling: a client is created only when
      attached and unattached clients together were fewer than `maxStreams`. */
  lemma AdmissionRespectsCeiling(f: Fleet, cfg: Config)
    requires Valid(f)
    ensures var r := StartAStream(f, cfg);
      Valid(r.fleet) && (r.actions != [] && r.actions[0].CreateClient? ==>
        r.fleet.nStreams + r.fleet.nUnattached <= f.maxStreams)
  {
    var r := StartAStream(f, cfg);
    if r.actions != [] && r.actions[0].CreateClient? {
      var id := r.actions[0].id;
      assert id !in f.unattached;
    }
  }

  // -----------------------------------------------------------------------
  // Client reports

  /** `clientAttached`: the client moves from unattached to attached; an id that was not
      unattached ends the process. */
  function ClientAttached(f: Fleet, id: int, lineNumber: int): (r: Reaction)
    ensures id !in f.unattached <==> Exited(r)
    ensures id in f.unattached && StrictlyAscending(Ids(f.attached)) ==>
      && r.actions == []
      && r.fleet.nStreams == f.nStreams + 1 && r.fleet.nUnattached == f.nUnattached - 1
      && r.fleet.unattached == f.unattached - {id}
      && (forall x :: x in Ids(r.fleet.attached) <==> x in Ids(f.attached) || x == id)
  {
    var f1 := f.(nStreams := f.nStreams + 1, nUnattached := f.nUnattached - 1);
    if id !in f.unattached || !StrictlyAscending(Ids(f.attached)) then
      Reaction(f1, if id !in f.unattached then [Exit] else [])
    else
      Reaction(f1.(unattached := f.unattached - {id},
                   attached := InsertPeer(f.attached, Peer(id, lineNumber))), [])
  }

  /** `abortClient`: one unattached client fewer. The counter goes down even when the id is
      unknown, and the process carries on. */
  function AbortClient(f: Fleet, id: int): (r: Fleet)
    ensures r.nUnattached == f.nUnattached - 1
    ensures r.unattached == f.unattached - {id}
    ensures r == f.(nUnattached := r.nUnattached, unattached := r.unattached)
  {
    f.(nUnattached := f.nUnattached - 1, unattached := f.unattached - {id})
  }

  /** `maybeUpdateResumeState`: the watermark follows the smallest attached id, but only
      upwards; each raise writes the line number of that client when a resume file is
      configured. */
  function MaybeUpdateResumeState(f: Fleet, cfg: Config): (r: Reaction)
    requires StrictlyAscending(Ids(f.attached))
    ensures r.fleet == f.(oldestLiving := r.fleet.oldestLiving)
    ensures r.fleet.oldestLiving >= f.oldestLiving
    ensures |f.attached| == 0 ==> r == Reaction(f, [])
    ensures |f.attached| > 0 ==>
      && r.fleet.oldestLiving == Max(f.oldestLiving, f.attached[0].id)
      && (forall x :: x in Ids(f.attached) ==> f.attached[0].id <= x)
      && r.actions == (if f.oldestLiving < f.attached[0].id && cfg.resumeFile
                       then [WriteResumeState(f.attached[0].lineNumber)] else [])
  {
    if |f.attached| == 0 then Reaction(f, [])
    else
      var oldest := f.attached[0];
      if f.oldestLiving < oldest.id then
        Reaction(f.(oldestLiving := oldest.id),
                 if cfg.resumeFile then [WriteResumeState(oldest.lineNumber)] else [])
      else Reaction(f, [])
  }

  /** `clientTerminatedOrKilled`: a client already ended is ignored. Otherwise it leaves the
      attached clients (an id not attached ends the process), is marked ended, and the
      resume watermark is updated. */
  function TerminatedOrKilled(f: Fleet, id: int, cfg: Config): (r: Reaction)
    requires StrictlyAscending(Ids(f.attached))
    ensures id in f.terminated ==> r == Reaction(f, [])
    ensures id !in f.terminated && id !in Ids(f.attached) ==> Exited(r)
    ensures id !in f.terminated && id in Ids(f.attached) ==>
      && !Exited(r)
      && r.fleet.nStreams == f.nStreams - 1
      && |r.fleet.attached| == |f.attached| - 1
      && r.fleet.terminated == f.terminated + {id}
      && (forall x :: x in Ids(r.fleet.attached) <==> x in Ids(f.attached) && x != id)
      && r.fleet.oldestLiving >= f.oldestLiving
      && r.fleet == f.(nStreams := r.fleet.nStreams, attached := r.fleet.attached,
                       terminated := r.fleet.terminated, oldestLiving := r.fleet.oldestLiving)
    ensures !Exited(r) ==> forall k :: 0 <= k < |r.actions| ==> r.actions[k].WriteResumeState?
    ensures StrictlyAscending(Ids(r.fleet.attached))
  {
    if id in f.terminated then Reaction(f, [])
    else
      var f1 := f.(nStreams := f.nStreams - 1);
      if id !in Ids(f.attached) then Reaction(f1, [Exit])
      else
        var f2 := f1.(attached := RemovePeer(f.attached, id), terminated := f.terminated + {id});
        MaybeUpdateResumeState(f2, cfg)
  }

  /** Ending a client twice is ending it once. */
  lemma EndingIsIdempotent(f: Fleet, id: int, cfg: Config)
    requires StrictlyAscending(Ids(f.attached)) && id in Ids(f.attached) && id !in f.terminated
    ensures var once := TerminatedOrKilled(f, id, cfg);
      TerminatedOrKilled(once.fleet, id, cfg) == Reaction(once.fleet, [])
  {
  }

  /** `reactToOverload`: remember the trouble and lower the ceiling by one. */
  function ReactToOverload(f: Fleet): (r: Fleet)
    ensures r == f.(maxStreams := f.maxStreams - 1, haveSeenSlowness := true, haveSeenOverload := true)
  {
    f.(haveSeenSlowness := true, haveSeenOverload := true, maxStreams := f.maxStreams - 1)
  }

  // -----------------------------------------------------------------------
  // The kill sweep

  predicate Distinct(s: seq<int>) {
    forall i, j :: 0 <= i < j < |s| ==> s[i] != s[j]
  }

  predicate ValidDraws(draws: seq<nat>) {
    forall k :: 0 <= k < |draws| ==> draws[k] < RandomScale
  }

  /** `floor(nStreams * killFactor)`, with the `-k` percentage as an exact fraction. */
  function KillCount(nStreams: int, killPct: int): (r: int)
    ensures 0 <= nStreams && 0 <= killPct <= 100 ==> 0 <= r <= nStreams
    ensures r * 100 <= nStreams * killPct < (r + 1) * 100
  {
    (nStreams * killPct) / 100
  }

  lemma DropAt(ids: seq<int>, p: nat)
    requires p < |ids|
    ensures |ids[..p] + ids[p + 1..]| == |ids| - 1
    ensures forall x :: x in ids[..p] + ids[p + 1..] ==> x in ids
    ensures Distinct(ids) ==> Distinct(ids[..p] + ids[p + 1..]) && ids[p] !in ids[..p] + ids[p + 1..]
  {
    var rest := ids[..p] + ids[p + 1..];
    assert forall k :: 0 <= k < |rest| ==> rest[k] == (if k < p then ids[k] else ids[k + 1]);
  }

  /** The sweep's choice: while fewer than `n` ids are chosen, draw a position uniformly among
      the ids not chosen yet and take that id out. When the ids run out before `n`, the
      source goes on choosing `undefined`; those choices are not in the result. */
  function PickIds(ids: seq<int>, n: int, draws: seq<nat>): (r: seq<int>)
    requires ValidDraws(draws) && |draws| >= n
    ensures |r| == Min(Max(n, 0), |ids|)
    ensures forall x :: x in r ==> x in ids
    ensures Distinct(ids) ==> Distinct(r)
    decreases |ids|
  {
    if n <= 0 || |ids| == 0 then []
    else
      var p := GetRandomInt(0, |ids| - 1, draws[0]);
      var rest := ids[..p] + ids[p + 1..];
      DropAt(ids, p);
      [ids[p]] + PickIds(rest, n - 1, draws[1..])
  }

  /** Every attached client can be the first one chosen. */
  lemma AnyIdCanBePicked(ids: seq<int>, k: nat)
    requires k < |ids| <= RandomScale
    ensures exists d: nat :: d < RandomScale && PickIds(ids, 1, [d]) == [ids[k]]
  {
    RandomCoversRange(0, |ids| - 1, k);
    var d: nat :| d < RandomScale && GetRandomInt(0, |ids| - 1, d) == k;
    assert PickIds(ids, 1, [d]) == [ids[k]];
  }

  /** The ids of the clients an action list kills, in order. */
  function Kills(actions: seq<Action>): seq<int> {
    if |actions| == 0 then []
    else (if actions[0].KillClient? then [actions[0].id] else []) + Kills(actions[1..])
  }

  lemma KillsAppend(a: seq<Action>, b: seq<Action>)
    ensures Kills(a + b) == Kills(a) + Kills(b)
  {
    if |a| > 0 {
      assert (a + b)[0] == a[0] && (a + b)[1..] == a[1..] + b;
      KillsAppend(a[1..], b);
    } else {
      assert a + b == b;
    }
  }

  lemma NoKills(actions: seq<Action>)
    requires forall k :: 0 <= k < |actions| ==> actions[k].WriteResumeState?
    ensures Kills(actions) == []
  {
    if |actions| > 0 {
      NoKills(actions[1..]);
    }
  }

  /** Kill the chosen clients one after the other; each kill ends its client at once, which
      reports back to `clientTerminatedOrKilled`. */
  function KillAll(f: Fleet, picks: seq<int>, cfg: Config): (r: Reaction)
    requires StrictlyAscending(Ids(f.attached))
    ensures StrictlyAscending(Ids(r.fleet.attached))
    decreases |picks|
  {
    if |picks| == 0 then Reaction(f, [])
    else
      var one := TerminatedOrKilled(f, picks[0], cfg);
      if Exited(one) then Reaction(one.fleet, [KillClient(picks[0])] + one.actions)
      else
        var more := KillAll(one.fleet, picks[1..], cfg);
        Reaction(more.fleet, [KillClient(picks[0])] + one.actions + more.actions)
  }

  /** Killing distinct attached clients kills exactly those, in order, and ends each once. */
  lemma {:induction false} KillAllKills(f: Fleet, picks: seq<int>, cfg: Config)
    requires StrictlyAscending(Ids(f.attached))
    requires Distinct(picks) && (forall x :: x in picks ==> x in Ids(f.attached) && x !in f.terminated)
    ensures var r := KillAll(f, picks, cfg);
      && !Exited(r)
      && Kills(r.actions) == picks
      && r.fleet.nStreams == f.nStreams - |picks|
      && |r.fleet.attached| == |f.attached| - |picks|
      && (forall x :: x in Ids(r.fleet.attached) <==> x in Ids(f.attached) && x !in picks)
      && (forall x :: x in r.fleet.terminated <==> x in f.terminated || x in picks)
      && r.fleet.oldestLiving >= f.oldestLiving
      && r.fleet == f.(nStreams := r.fleet.nStreams, attached := r.fleet.attached,
                       terminated := r.fleet.terminated, oldestLiving := r.fleet.oldestLiving)
    decreases |picks|
  {
    if |picks| > 0 {
      var one := TerminatedOrKilled(f, picks[0], cfg);
      assert picks[0] in picks;
      KillAllStep(f, picks, cfg, one);
      KillAllKills(one.fleet, picks[1..], cfg);
      var more := KillAll(one.fleet, picks[1..], cfg);
      KillsAppend([KillClient(picks[0])] + one.actions, more.actions);
      assert forall x :: x in picks <==> x == picks[0] || x in picks[1..];
    }
  }

  lemma KillAllStep(f: Fleet, picks: seq<int>, cfg: Config, one: Reaction)
    requires StrictlyAscending(Ids(f.attached)) && |picks| > 0
    requires one == TerminatedOrKilled(f, picks[0], cfg)
    requires Distinct(picks) && (forall x :: x in picks ==> x in Ids(f.attached) && x !in f.terminated)
    ensures !Exited(one)
    ensures Distinct(picks[1..])
    ensures forall x :: x in picks[1..] ==> x in Ids(one.fleet.attached) && x !in one.fleet.terminated
    ensures Kills([KillClient(picks[0])] + one.actions) == [picks[0]]
  {
    assert picks[0] in picks;
    forall x | x in picks[1..] ensures x in Ids(one.fleet.attached) && x !in one.fleet.terminated {
      var k :| 0 <= k < |picks[1..]| && picks[1..][k] == x;
      assert picks[k + 1] == x && x != picks[0];
    }
    KillsOfEnding(picks[0], one.actions);
  }

  lemma KillsOfEnding(id: int, wr: seq<Action>)
    requires forall k :: 0 <= k < |wr| ==> wr[k].WriteResumeState?
    ensures Kills([KillClient(id)] + wr) == [id]
  {
    NoKills(wr);
    KillsAppend([KillClient(id)], wr);
  }

  /** `killSomeStreams` as written: outside the dynamic mode it does nothing; in the
      dynamic mode its first step reads the global `killFactor`, which is never defined, and
      the resulting error ends the process. */
  function KillSomeStreamsAsWritten(f: Fleet, cfg: Config): (r: Reaction)
    ensures !cfg.dynamic ==> r == Reaction(f, [])
    ensures cfg.dynamic ==> Exited(r) && Kills(r.actions) == []
  {
    if !cfg.dynamic then Reaction(f, []) else Reaction(f, [Exit])
  }

  /** `killSomeStreams` reading the configured kill percentage: outside the dynamic mode
      nothing; with a ceiling of zero only the overload reaction (the ceiling goes to -1);
      while the kill gate is closed nothing; otherwise kill `KillCount` of the attached
      clients chosen without replacement and then react to the overload. */
  function KillSomeStreams(f: Fleet, cfg: Config, draws: seq<nat>): (r: Reaction)
    requires StrictlyAscending(Ids(f.attached))
    requires ValidDraws(draws) && |draws| >= KillCount(f.nStreams, cfg.killPct)
    ensures StrictlyAscending(Ids(r.fleet.attached))
    ensures !cfg.dynamic ==> r == Reaction(f, [])
    ensures cfg.dynamic && f.maxStreams == 0 ==> r == Reaction(ReactToOverload(f), [])
    ensures cfg.dynamic && f.maxStreams != 0 && !f.killGate.ready ==> r == Reaction(f, [])
  {
    if !cfg.dynamic then Reaction(f, [])
    else
      var n := KillCount(f.nStreams, cfg.killPct);
      if f.maxStreams == 0 then Reaction(ReactToOverload(f), [])
      else
        var fired := Cooloff.Fire(f.killGate);
        if !fired.ok then Reaction(f, [])
        else
          var picks := PickIds(Ids(f.attached), n, draws);
          var killed := KillAll(f.(killGate := fired.gate), picks, cfg);
          if Exited(killed) then killed
          else if n > |picks| then Reaction(killed.fleet, killed.actions + [Exit])
          else Reaction(ReactToOverload(killed.fleet), killed.actions)
  }

  /** The sweep on a consistent fleet with an open gate: it kills exactly `KillCount`
      distinct attached clients, the survivors are the others, and the ceiling drops by
      exactly one. */
  lemma KillSweepKillsExactly(f: Fleet, cfg: Config, draws: seq<nat>)
    requires Valid(f) && cfg.dynamic && 0 <= cfg.killPct <= 100
    requires f.maxStreams != 0 && f.killGate.ready
    requires ValidDraws(draws) && |draws| >= KillCount(f.nStreams, cfg.killPct)
    ensures var r := KillSomeStreams(f, cfg, draws);
      && !Exited(r)
      && Distinct(Kills(r.actions))
      && |Kills(r.actions)| == KillCount(f.nStreams, cfg.killPct)
      && (forall x :: x in Kills(r.actions) ==> x in Ids(f.attached))
      && (forall x :: x in Ids(r.fleet.attached) <==> x in Ids(f.attached) && x !in Kills(r.actions))
      && r.fleet.nStreams == f.nStreams - KillCount(f.nStreams, cfg.killPct)
      && r.fleet.maxStreams == f.maxStreams - 1
      && r.fleet.haveSeenOverload && r.fleet.haveSeenSlowness
      && Valid(r.fleet)
  {
    var n := KillCount(f.nStreams, cfg.killPct);
    var fired := Cooloff.Fire(f.killGate);
    var f1 := f.(killGate := fired.gate);
    var picks := PickIds(Ids(f.attached), n, draws);
    assert Distinct(Ids(f.attached));
    assert |picks| == n;
    var killed := KillAll(f1, picks, cfg);
    KillAllKills(f1, picks, cfg);
    ValidAfterKills(f, f1, picks, killed);
  }

  lemma ValidAfterKills(f: Fleet, f1: Fleet, picks: seq<int>, killed: Reaction)
    requires Valid(f) && f1 == f.(killGate := f1.killGate) && Cooloff.Valid(f1.killGate)
    requires forall x :: x in picks ==> x in Ids(f.attached)
    requires killed.fleet.nStreams == f1.nStreams - |picks|
    requires |killed.fleet.attached| == |f1.attached| - |picks|
    requires StrictlyAscending(Ids(killed.fleet.attached))
    requires forall x :: x in Ids(killed.fleet.attached) <==> x in Ids(f1.attached) && x !in picks
    requires forall x :: x in killed.fleet.terminated <==> x in f1.terminated || x in picks
    requires killed.fleet == f1.(nStreams := killed.fleet.nStreams, attached := killed.fleet.attached,
                                 terminated := killed.fleet.terminated, oldestLiving := killed.fleet.oldestLiving)
    ensures Valid(killed.fleet) && Valid(ReactToOverload(killed.fleet))
  {
  }

  // -----------------------------------------------------------------------
  // The master playlist of a new client

  /** The answer to a new client's master-playlist request. */
  datatype MasterResponse = MasterTransportError | MasterStatus(code: int, body: string)

  /** `fetchQualityData` and the selection after it: a redirect aborts the client without a
      replacement; a transport error, any other status but 200, a playlist that cannot be
      read or a selection that comes back empty aborts it and admission runs again;
      otherwise the client attaches to the selected variant, and the bookkeeping waits for
      it to report. */
  function QualityFetched(f: Fleet, cfg: Config, id: int, url: string, resp: MasterResponse,
                          mode: Quality.BwMode, skipAudioOnly: bool, d: Quality.Draws)
    : (r: (Reaction, Option<Quality.Variant>))
    requires Quality.ValidDraws(d)
    ensures r.1.Some? <==>
      && resp.MasterStatus? && resp.code == 200
      && Quality.ParseQualityData(url, resp.body).Success?
      && Quality.SelectQuality(Quality.ParseQualityData(url, resp.body).value, mode, skipAudioOnly, d, Quality.AsWritten).Some?
    ensures r.1.Some? ==> r.0 == Reaction(f, []) && r.1.value in Quality.ParseQualityData(url, resp.body).value
    ensures resp.MasterStatus? && IsRedirect(resp.code) ==> r == (Reaction(AbortClient(f, id), []), None)
    ensures r.1.None? && !(resp.MasterStatus? && IsRedirect(resp.code)) ==>
      r.0 == StartAStream(AbortClient(f, id), cfg)
  {
    var aborted := (StartAStream(AbortClient(f, id), cfg), None);
    match resp
    case MasterTransportError => aborted
    case MasterStatus(code, body) =>
      if code == 200 then
        match Quality.ParseQualityData(url, body)
        case Failure(_) => aborted
        case Success(list) =>
          match Quality.SelectQuality(list, mode, skipAudioOnly, d, Quality.AsWritten)
          case None => aborted
          case Some(v) => (Reaction(f, []), Some(v))
      else if IsRedirect(code) then (Reaction(AbortClient(f, id), []), None)
      else aborted
  }

  // -----------------------------------------------------------------------
  // Dispatch of client reports

  /** What a client reports to the manager, with the flags of the client the handler reads. */
  datatype Notice =
    | Attached(id: int, lineNumber: int)
    | Terminated(id: int)
    | Killed(id: int)
    | Redirected(id: int, wasAttached: bool)
    | UnattachedRedirected(id: int)
    | Aborted(id: int)
    | BadService(id: int, terminating: bool)
    | VeryBadService(id: int, terminating: bool)
    | SlowServer(id: int)

  predicate Creates(actions: seq<Action>) {
    exists k :: 0 <= k < |actions| && actions[k].CreateClient?
  }

  lemma CreatesAppend(a: seq<Action>, b: seq<Action>)
    ensures Creates(a + b) <==> Creates(a) || Creates(b)
  {
    if Creates(a + b) {
      var k :| 0 <= k < |a + b| && (a + b)[k].CreateClient?;
      if k >= |a| {
        assert b[k - |a|].CreateClient?;
      }
    }
    if Creates(a) {
      var k :| 0 <= k < |a| && a[k].CreateClient?;
      assert (a + b)[k].CreateClient?;
    }
    if Creates(b) {
      var k :| 0 <= k < |b| && b[k].CreateClient?;
      assert (a + b)[k + |a|].CreateClient?;
    }
  }

  /** The handler of each report. Only a terminated or aborted client is replaced. A very
      bad service report from a client still running is registered and runs the kill sweep
      as the source writes it, which ends the process in the dynamic mode. */
  function Handle(f: Fleet, cfg: Config, n: Notice): (r: Reaction)
    requires StrictlyAscending(Ids(f.attached))
    ensures StrictlyAscending(Ids(r.fleet.attached))
    ensures Creates(r.actions) ==> n.Terminated? || n.Aborted?
    ensures n.VeryBadService? && !n.terminating ==>
      && r.fleet.stats == Stats.RegisterVeryBadService(f.stats, n.id)
      && (Exited(r) <==> cfg.dynamic)
  {
    match n
    case Attached(id, lineNumber) => ClientAttached(f, id, lineNumber)
    case Terminated(id) =>
      var ended := TerminatedOrKilled(f, id, cfg);
      if Exited(ended) then ended
      else
        var next := StartAStream(ended.fleet, cfg);
        Reaction(next.fleet, ended.actions + next.actions)
    case Killed(id) => NoCreation(f, id, cfg); TerminatedOrKilled(f, id, cfg)
    case Redirected(id, wasAttached) =>
      NoCreation(f, id, cfg);
      if wasAttached then TerminatedOrKilled(f, id, cfg) else Reaction(AbortClient(f, id), [])
    case UnattachedRedirected(id) => Reaction(AbortClient(f, id), [])
    case Aborted(id) => StartAStream(AbortClient(f, id), cfg)
    case BadService(id, terminating) =>
      if terminating then Reaction(f, [])
      else Reaction(f.(stats := Stats.RegisterBadService(f.stats, id)), [])
    case VeryBadService(id, terminating) =>
      if terminating then Reaction(f, [])
      else KillSomeStreamsAsWritten(f.(stats := Stats.RegisterVeryBadService(f.stats, id)), cfg)
    case SlowServer(id) =>
      Reaction(f.(stats := Stats.RegisterSlowServer(f.stats, id), haveSeenSlowness := true), [])
  }

  /** An attached client that terminates is replaced when the end makes room: the
      replacement is the admission candidate, with the next serial number. */
  lemma {:induction false} TerminatedIsReplaced(f: Fleet, cfg: Config, id: int)
    requires StrictlyAscending(Ids(f.attached)) && id in Ids(f.attached) && id !in f.terminated
    requires f.nStreams - 1 + f.nUnattached < f.maxStreams && f.utilizationOK
    requires Candidate(f, cfg).Some?
    ensures var r := Handle(f, cfg, Terminated(id));
      var c := Candidate(f, cfg).value;
      && |r.actions| > 0
      && r.actions[|r.actions| - 1] == CreateClient(f.serialNo + 1, f.serialNo + f.nSkippedLines + c.1, c.0)
      && r.fleet.unattached == f.unattached + {f.serialNo + 1}
  {
    var ended := TerminatedOrKilled(f, id, cfg);
    var next := StartAStream(ended.fleet, cfg);
    var c := Candidate(f, cfg).value;
    assert Handle(f, cfg, Terminated(id)) == Reaction(next.fleet, ended.actions + next.actions) by {
      assert !Exited(ended);
    }
    assert ended.fleet.urls == f.urls && ended.fleet.serialNo == f.serialNo
      && ended.fleet.nSkippedLines == f.nSkippedLines && ended.fleet.unattached == f.unattached
      && ended.fleet.nStreams + ended.fleet.nUnattached < ended.fleet.maxStreams && ended.fleet.utilizationOK
    by {
      EndingFrame(f, id, cfg);
    }
    assert Candidate(ended.fleet, cfg) == Candidate(f, cfg) by {
      assert ended.fleet.urls == f.urls;
    }
    AdmitsCandidate(ended.fleet, cfg);
  }

  /** A redirected attached client is not replaced when its redirect is handled, but its
      session timer still runs; when it fires, the `Terminated` report starts the admission
      candidate although the client had already ended. */
  lemma {:induction false} RedirectThenTimerReplaces(f: Fleet, cfg: Config, id: int)
    requires StrictlyAscending(Ids(f.attached)) && id in Ids(f.attached) && id !in f.terminated
    requires f.nStreams - 1 + f.nUnattached < f.maxStreams && f.utilizationOK
    requires Candidate(f, cfg).Some?
    ensures var redirected := Handle(f, cfg, Redirected(id, true));
      var fired := Handle(redirected.fleet, cfg, Terminated(id));
      var c := Candidate(f, cfg).value;
      && !Creates(redirected.actions)
      && id in redirected.fleet.terminated
      && fired.actions == [CreateClient(f.serialNo + 1, f.serialNo + f.nSkippedLines + c.1, c.0)]
  {
    var ended := TerminatedOrKilled(f, id, cfg);
    var g := ended.fleet;
    assert Handle(f, cfg, Redirected(id, true)) == ended;
    assert g.urls == f.urls && g.serialNo == f.serialNo && g.nSkippedLines == f.nSkippedLines
      && g.nStreams + g.nUnattached < g.maxStreams && g.utilizationOK && id in g.terminated
    by {
      EndingFrame(f, id, cfg);
    }
    assert Candidate(g, cfg) == Candidate(f, cfg) by {
      assert g.urls == f.urls;
    }
    assert Handle(g, cfg, Terminated(id)) == StartAStream(g, cfg) by {
      assert TerminatedOrKilled(g, id, cfg) == Reaction(g, []);
    }
    AdmitsCandidate(g, cfg);
  }

  /** With room and a candidate, admission creates exactly that client and records it as
      unattached. */
  lemma {:induction false} AdmitsCandidate(f: Fleet, cfg: Config)
    requires f.nStreams + f.nUnattached < f.maxStreams && f.utilizationOK && Candidate(f, cfg).Some?
    ensures var r := StartAStream(f, cfg);
      var c := Candidate(f, cfg).value;
      && r.actions == [CreateClient(f.serialNo + 1, f.serialNo + f.nSkippedLines + c.1, c.0)]
      && r.fleet.unattached == f.unattached + {f.serialNo + 1}
  {
    StartAStreamCreates(f, cfg);
  }

  /** Ending an attached client changes only the attached clients, their count, the ended
      set and the resume watermark. */
  lemma EndingFrame(f: Fleet, id: int, cfg: Config)
    requires StrictlyAscending(Ids(f.attached)) && id in Ids(f.attached) && id !in f.terminated
    ensures var g := TerminatedOrKilled(f, id, cfg).fleet;
      g == f.(nStreams := f.nStreams - 1, attached := g.attached, terminated := g.terminated,
              oldestLiving := g.oldestLiving)
  {
  }

  lemma NoCreation(f: Fleet, id: int, cfg: Config)
    requires StrictlyAscending(Ids(f.attached))
    ensures !Creates(TerminatedOrKilled(f, id, cfg).actions)
  {
  }

  lemma {:induction false} KillAllCreatesNothing(f: Fleet, picks: seq<int>, cfg: Config)
    requires StrictlyAscending(Ids(f.attached))
    ensures !Creates(KillAll(f, picks, cfg).actions)
    decreases |picks|
  {
    if |picks| > 0 {
      var one := TerminatedOrKilled(f, picks[0], cfg);
      NoCreation(f, picks[0], cfg);
      CreatesAppend([KillClient(picks[0])], one.actions);
      if !Exited(one) {
        KillAllCreatesNothing(one.fleet, picks[1..], cfg);
        CreatesAppend([KillClient(picks[0])] + one.actions, KillAll(one.fleet, picks[1..], cfg).actions);
      }
    }
  }

  lemma SweepCreatesNothing(f: Fleet, cfg: Config, draws: seq<nat>)
    requires StrictlyAscending(Ids(f.attached))
    requires ValidDraws(draws) && |draws| >= KillCount(f.nStreams, cfg.killPct)
    ensures !Creates(KillSomeStreams(f, cfg, draws).actions)
  {
    if cfg.dynamic && f.maxStreams != 0 && f.killGate.ready {
      var fired := Cooloff.Fire(f.killGate);
      var picks := PickIds(Ids(f.attached), KillCount(f.nStreams, cfg.killPct), draws);
      var killed := KillAll(f.(killGate := fired.gate), picks, cfg);
      KillAllCreatesNothing(f.(killGate := fired.gate), picks, cfg);
      CreatesAppend(killed.actions, [Exit]);
    }
  }

  /** The reports the bookkeeping expects: an attach from an unattached client, an end from
      an attached (or already ended) one, an abort from an unattached one. */
  predicate Expected(f: Fleet, n: Notice) {
    match n
    case Attached(id, _) => id in f.unattached
    case Terminated(id) => id in Ids(f.attached) || id in f.terminated
    case Killed(id) => id in Ids(f.attached) || id in f.terminated
    case Redirected(id, wasAttached) =>
      if wasAttached then id in Ids(f.attached) || id in f.terminated else id in f.unattached
    case UnattachedRedirected(id) => id in f.unattached
    case Aborted(id) => id in f.unattached
    case _ => true
  }

  /** Expected reports keep the bookkeeping consistent. Such a report ends the process in
      two ways only: a very bad service report from a running client in the dynamic mode,
      which always does, and a fixed stream path naming an HDS manifest. */
  lemma HandleKeepsValid(f: Fleet, cfg: Config, n: Notice)
    requires Valid(f) && Expected(f, n)
    ensures var r := Handle(f, cfg, n);
      && Valid(r.fleet)
      && (Exited(r) ==>
            || (n.VeryBadService? && !n.terminating && cfg.dynamic)
            || (cfg.streamPath != "" && EndsWith(PrepareUrl(cfg.streamPath, cfg), HdsSuffix)))
      && (n.VeryBadService? && !n.terminating && cfg.dynamic ==> Exited(r))
  {
    match n
    case Attached(id, lineNumber) => AttachKeepsValid(f, id, lineNumber);
    case Terminated(id) => ReplaceKeepsValid(f, id, cfg);
    case Killed(id) => EndKeepsValid(f, id, cfg);
    case Redirected(id, wasAttached) =>
      if wasAttached {
        EndKeepsValid(f, id, cfg);
      }
    case UnattachedRedirected(id) =>
    case Aborted(id) => AdmissionRespectsCeiling(AbortClient(f, id), cfg);
    case BadService(id, terminating) =>
    case VeryBadService(id, terminating) =>
    case SlowServer(id) =>
  }

  lemma ReplaceKeepsValid(f: Fleet, id: int, cfg: Config)
    requires Valid(f) && (id in Ids(f.attached) || id in f.terminated)
    ensures var ended := TerminatedOrKilled(f, id, cfg);
      var next := StartAStream(ended.fleet, cfg);
      && !Exited(ended) && Valid(next.fleet)
      && (Exit in ended.actions + next.actions ==>
            cfg.streamPath != "" && EndsWith(PrepareUrl(cfg.streamPath, cfg), HdsSuffix))
  {
    EndKeepsValid(f, id, cfg);
    AdmissionRespectsCeiling(TerminatedOrKilled(f, id, cfg).fleet, cfg);
  }

  lemma SweepKeepsValid(f: Fleet, cfg: Config, draws: seq<nat>)
    requires Valid(f) && 0 <= cfg.killPct <= 100
    requires ValidDraws(draws) && |draws| >= KillCount(f.nStreams, cfg.killPct)
    ensures Valid(KillSomeStreams(f, cfg, draws).fleet) && !Exited(KillSomeStreams(f, cfg, draws))
  {
    if cfg.dynamic && f.maxStreams != 0 && f.killGate.ready {
      KillSweepKillsExactly(f, cfg, draws);
    }
  }

  lemma AttachKeepsValid(f: Fleet, id: int, lineNumber: int)
    requires Valid(f) && id in f.unattached
    ensures Valid(ClientAttached(f, id, lineNumber).fleet)
  {
    var g := ClientAttached(f, id, lineNumber).fleet;
    assert id !in Ids(f.attached);
    assert |f.unattached - {id}| == |f.unattached| - 1;
  }

  lemma EndKeepsValid(f: Fleet, id: int, cfg: Config)
    requires Valid(f) && (id in Ids(f.attached) || id in f.terminated)
    ensures !Exited(TerminatedOrKilled(f, id, cfg))
    ensures Valid(TerminatedOrKilled(f, id, cfg).fleet)
  {
  }

  /** The bookkeeping's side of the kill-sweep defect: on a consistent fleet where the sweep
      should kill, the code as written ends the process without killing anyone, while the
      sweep reading the configured percentage kills `KillCount` clients and carries on. */
  lemma KillFactorEndsTheProcess(f: Fleet, cfg: Config, draws: seq<nat>)
    requires Valid(f) && cfg.dynamic && 0 <= cfg.killPct <= 100
    requires f.maxStreams != 0 && f.killGate.ready && KillCount(f.nStreams, cfg.killPct) >= 1
    requires ValidDraws(draws) && |draws| >= KillCount(f.nStreams, cfg.killPct)
    ensures Exited(KillSomeStreamsAsWritten(f, cfg)) && Kills(KillSomeStreamsAsWritten(f, cfg).actions) == []
    ensures !Exited(KillSomeStreams(f, cfg, draws)) && |Kills(KillSomeStreams(f, cfg, draws).actions)| >= 1
  {
    KillSweepKillsExactly(f, cfg, draws);
  }

  /** A client aborted before it attached (a playlist-type conflict during its first
      fetch, say) and attaching afterwards ends the process: the abort already forgot it. */
  lemma AttachAfterAbortExits(f: Fleet, cfg: Config, id: int, lineNumber: int)
    requires Valid(f) && id in f.unattached
    ensures var g := Handle(f, cfg, Aborted(id)).fleet;
      Exited(Handle(g, cfg, Attached(id, lineNumber)))
  {
    var g0 := AbortClient(f, id);
    var g := StartAStream(g0, cfg).fleet;
    assert id !in g0.unattached;
    assert id <= g0.serialNo;
  }

  /** An abort for a client that is not unattached (a second abort from the same client,
      say) still lowers the counter, which then undercounts the unattached clients. */
  lemma AbortOfUnknownIdDrifts(f: Fleet, id: int)
    requires Valid(f) && id !in f.unattached
    ensures var g := AbortClient(f, id);
      g.nUnattached == |g.unattached| - 1 && !Valid(g)
  {
  }

  // -----------------------------------------------------------------------
  // The dynamic mode's periodic adjustments

  /** `adjustMaxStreams`: one tick of the ceiling gate; the ceiling rises by one exactly when
      the fleet is at the ceiling and the gate, after the tick, lets the raise through. */
  function AdjustMaxStreams(f: Fleet): (r: Fleet)
    ensures r == f.(maxStreamsGate := r.maxStreamsGate, maxStreams := r.maxStreams)
    ensures r.maxStreams == f.maxStreams || r.maxStreams == f.maxStreams + 1
    ensures r.maxStreams == f.maxStreams + 1 <==>
      f.nStreams == f.maxStreams && Cooloff.Tick(f.maxStreamsGate).ready
    ensures Cooloff.Valid(f.maxStreamsGate) ==> Cooloff.Valid(r.maxStreamsGate)
  {
    var g := Cooloff.Tick(f.maxStreamsGate);
    if f.nStreams == f.maxStreams then
      var fired := Cooloff.Fire(g);
      f.(maxStreamsGate := fired.gate, maxStreams := if fired.ok then f.maxStreams + 1 else f.maxStreams)
    else f.(maxStreamsGate := g)
  }

  /** After a raise the next adjustment cannot raise again, whatever the fleet does in
      between. */
  lemma NoRaiseRightAfterRaise(f: Fleet, g: Fleet)
    requires Cooloff.Valid(f.maxStreamsGate) && f.maxStreamsGate.limit >= 2
    requires AdjustMaxStreams(f).maxStreams == f.maxStreams + 1
    requires g.maxStreamsGate == AdjustMaxStreams(f).maxStreamsGate
    ensures AdjustMaxStreams(g).maxStreams == g.maxStreams
  {
  }

  /** `adjustRampRate`: one tick of the slowness gate; whenever the gate lets it through,
      the slowness seen is forgotten. */
  function AdjustRampRate(f: Fleet): (r: Fleet)
    ensures r == f.(slownessGate := r.slownessGate, haveSeenSlowness := r.haveSeenSlowness)
    ensures r.haveSeenSlowness <==> f.haveSeenSlowness && !Cooloff.Tick(f.slownessGate).ready
    ensures Cooloff.Valid(f.slownessGate) ==> Cooloff.Valid(r.slownessGate)
  {
    var fired := Cooloff.Fire(Cooloff.Tick(f.slownessGate));
    f.(slownessGate := fired.gate, haveSeenSlowness := if fired.ok then false else f.haveSeenSlowness)
  }

  /** One round of `startNewClientDynamically` without its timer: the kill gate ticks, the
      ceiling is adjusted, the interval to the next round (in seconds, before its random
      spread) is chosen from the trouble seen so far, and then the ramp rate is adjusted. */
  function DynamicRound(f: Fleet): (r: (Fleet, int))
    ensures r.1 == (if f.haveSeenOverload || f.haveSeenSlowness then NewClientIntervalSecs
                    else NewClientRampIntervalSecs)
    ensures r.0.attached == f.attached && r.0.unattached == f.unattached
    ensures r.0.nStreams == f.nStreams && r.0.nUnattached == f.nUnattached
    ensures Valid(f) ==> Valid(r.0)
  {
    var interval := if f.haveSeenOverload || f.haveSeenSlowness then NewClientIntervalSecs
                    else NewClientRampIntervalSecs;
    var f1 := f.(killGate := Cooloff.Tick(f.killGate));
    (AdjustRampRate(AdjustMaxStreams(f1)), interval)
  }
}
