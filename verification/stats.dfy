/**
 The per-period statistics of the fleet (statscollector.js): which clients
 have seen bad service, very bad service or a slow server since the last
 report. Each client counts at most once per kind of observation.
 */
module Stats {

  datatype Observation = Bad | VeryBad | Slow

  /** Observations per client id: the source's `stats[clientId][key] = 1`. */
  type Table = map<int, set<Observation>>

  datatype Report = Report(nStreams: int, nVeryBadService: nat, nBadService: nat, nSlowServerSeen: nat)

  function Empty(): (t: Table)
    ensures |t| == 0
  {
    map[]
  }

  /** The clients that have `key` recorded. */
  function IdsWith(t: Table, key: Observation): set<int> {
    set id | id in t && key in t[id]
  }

  /** Record that client `id` has seen `key`; an unknown client gets an entry first. */
  function RegisterObservation(t: Table, id: int, key: Observation): (r: Table)
    ensures r.Keys == t.Keys + {id}
    ensures key in r[id]
    ensures id in t ==> t[id] <= r[id]
    ensures forall other :: other in t && other != id ==> r[other] == t[other]
    ensures forall k :: k in r[id] ==> k == key || (id in t && k in t[id])
  {
    var seen := if id in t then t[id] else {};
    t[id := seen + {key}]
  }

  function RegisterBadService(t: Table, id: int): (r: Table)
    ensures IdsWith(r, Bad) == IdsWith(t, Bad) + {id}
  {
    RegisterObservation(t, id, Bad)
  }

  function RegisterVeryBadService(t: Table, id: int): (r: Table)
    ensures IdsWith(r, VeryBad) == IdsWith(t, VeryBad) + {id}
  {
    RegisterObservation(t, id, VeryBad)
  }

  function RegisterSlowServer(t: Table, id: int): (r: Table)
    ensures IdsWith(r, Slow) == IdsWith(t, Slow) + {id}
  {
    RegisterObservation(t, id, Slow)
  }

  /** The number of distinct clients with `key` recorded. */
  function Count(t: Table, key: Observation): nat {
    |IdsWith(t, key)|
  }

  /** `countServiceStatus`: walk the recorded clients in the order `Object.keys` lists them
      (each exactly once), counting those that have `key` recorded. */
  method CountServiceStatus(t: Table, key: Observation, ids: seq<int>) returns (count: nat)
    requires ListsKeys(ids, t)
    ensures count == |IdsWith(t, key)|
    ensures count <= |t|
  {
    count := 0;
    var k := 0;
    while k < |ids|
      invariant 0 <= k <= |ids|
      invariant count == Tally(IdsWith(t, key), ids[..k])
    {
      assert ids[..k + 1][..k] == ids[..k];
      assert ids[k] in Elems(ids);
      assert key in t[ids[k]] <==> ids[k] in IdsWith(t, key);
      if key in t[ids[k]] {
        count := count + 1;
      }
      k := k + 1;
    }
    assert ids[..k] == ids;
    TallyCounts(IdsWith(t, key), ids);
    assert Elems(ids) * IdsWith(t, key) == IdsWith(t, key);
    SubsetCard(IdsWith(t, key), t.Keys);
  }

  /** How many entries of `ids` belong to `target`. */
  function Tally(target: set<int>, ids: seq<int>): nat {
    if |ids| == 0 then 0
    else Tally(target, ids[..|ids| - 1]) + (if ids[|ids| - 1] in target then 1 else 0)
  }

  /** Over a list without repetitions, the tally is the number of listed members of `target`. */
  lemma {:induction false} TallyCounts(target: set<int>, ids: seq<int>)
    requires forall a, b :: 0 <= a < b < |ids| ==> ids[a] != ids[b]
    ensures Tally(target, ids) == |Elems(ids) * target|
  {
    if |ids| > 0 {
      var k := |ids| - 1;
      TallyCounts(target, ids[..k]);
      ElemsStep(ids, k);
      assert ids[..k + 1] == ids;
      CountStep(Elems(ids[..k]), target, ids[k]);
    }
  }

  function Elems(ids: seq<int>): set<int> {
    set i | i in ids
  }

  /** `ids` lists every key of `t` exactly once. */
  predicate ListsKeys(ids: seq<int>, t: Table) {
    && Elems(ids) == t.Keys
    && forall a, b :: 0 <= a < b < |ids| ==> ids[a] != ids[b]
  }

  lemma ElemsStep(ids: seq<int>, k: nat)
    requires k < |ids|
    requires forall a, b :: 0 <= a < b < |ids| ==> ids[a] != ids[b]
    ensures Elems(ids[..k + 1]) == Elems(ids[..k]) + {ids[k]}
    ensures ids[k] !in Elems(ids[..k])
  {
    assert ids[..k + 1] == ids[..k] + [ids[k]];
  }

  lemma CountStep(done: set<int>, target: set<int>, id: int)
    requires id !in done
    ensures (done + {id}) * target == done * target + (if id in target then {id} else {})
    ensures |(done + {id}) * target| == |done * target| + (if id in target then 1 else 0)
  {
    if id in target {
      assert (done + {id}) * target == done * target + {id};
    } else {
      assert (done + {id}) * target == done * target;
    }
  }

  lemma SubsetCard(a: set<int>, b: set<int>)
    requires a <= b
    ensures |a| <= |b|
  {
    assert b == a + (b - a);
  }

  /** Recording an observation twice is the same as recording it once. */
  lemma RegisterIdempotent(t: Table, id: int, key: Observation)
    ensures RegisterObservation(RegisterObservation(t, id, key), id, key)
         == RegisterObservation(t, id, key)
  {
    var once := RegisterObservation(t, id, key);
    assert once[id] + {key} == once[id];
  }

  /** Recording `key` for a client adds that client to the `key` count, at most once. */
  lemma RegisterCountsOnce(t: Table, id: int, key: Observation)
    ensures IdsWith(RegisterObservation(t, id, key), key) == IdsWith(t, key) + {id}
    ensures Count(RegisterObservation(t, id, key), key)
         == Count(t, key) + (if id in IdsWith(t, key) then 0 else 1)
  {
    var r := RegisterObservation(t, id, key);
    forall x
      ensures x in IdsWith(r, key) <==> x in IdsWith(t, key) + {id}
    {
    }
    assert IdsWith(r, key) == IdsWith(t, key) + {id};
    if id in IdsWith(t, key) {
      assert IdsWith(t, key) + {id} == IdsWith(t, key);
    }
  }

  /** Recording one kind of observation leaves the count of every other kind alone. */
  lemma RegisterLeavesOtherKinds(t: Table, id: int, key: Observation, other: Observation)
    requires other != key
    ensures IdsWith(RegisterObservation(t, id, key), other) == IdsWith(t, other)
  {
    var r := RegisterObservation(t, id, key);
    forall x | x in IdsWith(r, other) ensures x in IdsWith(t, other) {
    }
  }

  /** `calculateStats`: the stream count supplied by the fleet and the number of distinct
      clients per observation kind. */
  function CalculateStats(nStreams: int, t: Table): (r: Report)
    ensures r.nStreams == nStreams
    ensures r.nVeryBadService == |IdsWith(t, VeryBad)| && r.nBadService == |IdsWith(t, Bad)|
    ensures r.nSlowServerSeen == |IdsWith(t, Slow)|
    ensures r.nVeryBadService <= |t| && r.nBadService <= |t| && r.nSlowServerSeen <= |t|
  {
    SubsetCard(IdsWith(t, VeryBad), t.Keys);
    SubsetCard(IdsWith(t, Bad), t.Keys);
    SubsetCard(IdsWith(t, Slow), t.Keys);
    Report(nStreams, Count(t, VeryBad), Count(t, Bad), Count(t, Slow))
  }

  /** `sendStatistics` followed by `resetStats`: the report describes the period that ends,
      and the next period starts with every count at zero. Forwarding the report is not
      modelled. */
  function SendStatistics(nStreams: int, t: Table): (r: (Report, Table))
    ensures r.0 == CalculateStats(nStreams, t)
    ensures forall key :: Count(r.1, key) == 0
  {
    (CalculateStats(nStreams, t), Empty())
  }
}
