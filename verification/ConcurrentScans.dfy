/** Scans of one engine running at the same time (operator/internal/engine/engine.go). A scan
    reads the remembered hash and verdict map in one critical section and writes both in another;
    in between, and while it reads the verdict map, it holds no lock. Verdict maps are shared heap
    cells, filled entry by entry. An interleaving is a sequence of events. */
module ConcurrentScans {
  import opened GoTypes
  import opened LlmTypes

  /** What a scan works on: its policy, the snapshot it collected, and the IDs of its checks. */
  datatype Job = Job(key: string, snapshot: string, ids: seq<string>)

  datatype Phase =
    | Started(job: Job)
    | Looked(job: Job, hash: Option<string>, seen: Option<nat>)
    | Reusing(job: Job, cell: nat, got: seq<Verdict>)
    | Computed(job: Job, verdicts: seq<Verdict>)
    | Filling(job: Job, verdicts: seq<Verdict>, cell: nat, filled: nat)
    | Done(job: Job, verdicts: seq<Verdict>, source: Option<nat>)

  /** A scan that computed its verdicts itself and has published them, and which scan that was. */
  datatype Completed = Completed(scan: nat, job: Job, verdicts: seq<Verdict>)

  datatype State = State(
    hashes: map<string, string>,
    last: map<string, nat>,
    heap: map<nat, map<string, Verdict>>,
    next: nat,
    lock: Option<nat>,
    scans: map<nat, Phase>,
    authors: map<nat, Completed>)

  const INITIAL := State(map[], map[], map[], 0, None, map[], map[])

  datatype Event =
    | Start(i: nat, job: Job)
    | Look(i: nat)
    | BeginReuse(i: nat)
    | ReadNext(i: nat)
    | Compute(i: nat, verdicts: seq<Verdict>)
    | BeginStore(i: nat)
    | FillNext(i: nat)
    | Publish(i: nat)

  function Lookup<V>(m: map<string, V>, key: string): Option<V> {
    if key in m then Some(m[key]) else None
  }

  /** The first n entries of a scan's verdict map. */
  function Entries(ids: seq<string>, verdicts: seq<Verdict>, n: nat): map<string, Verdict>
    requires n <= |ids| == |verdicts|
  {
    if n == 0 then map[] else Entries(ids, verdicts, n - 1)[ids[n - 1] := verdicts[n - 1]]
  }

  /** The skip: the remembered hash is the snapshot's, and the remembered verdicts cover all checks. */
  predicate MaySkip(digest: string -> string, s: State, p: Phase)
    requires p.Looked?
  {
    && p.hash == Some(digest(p.job.snapshot))
    && p.seen.Some? && p.seen.value in s.heap && p.job.ids != []
    && (forall id <- p.job.ids :: id in s.heap[p.seen.value])
  }

  /** Event e can happen now. */
  predicate Due(digest: string -> string, s: State, e: Event) {
    if e.Start? then e.i !in s.scans
    else if e.i !in s.scans then false
    else
      var p := s.scans[e.i];
      match e
      case Start(_, _) => false
      case Look(_) => p.Started? && s.lock.None?
      case BeginReuse(_) => p.Looked? && MaySkip(digest, s, p)
      case ReadNext(_) =>
        && p.Reusing?
        && (|p.got| < |p.job.ids| ==> p.cell in s.heap && p.job.ids[|p.got|] in s.heap[p.cell])
      case Compute(_, verdicts) => p.Looked? && !MaySkip(digest, s, p) && |verdicts| == |p.job.ids|
      case BeginStore(_) => p.Computed? && s.lock.None?
      case FillNext(_) => p.Filling? && p.filled < |p.job.ids| == |p.verdicts| && p.cell in s.heap
      case Publish(_) => p.Filling? && p.filled == |p.job.ids|
  }

  function Effect(digest: string -> string, s: State, e: Event): State
    requires Due(digest, s, e)
  {
    if e.Start? then s.(scans := s.scans[e.i := Started(e.job)])
    else
      var p := s.scans[e.i];
      match e
      case Look(i) => s.(scans := s.scans[i := Looked(p.job, Lookup(s.hashes, p.job.key), Lookup(s.last, p.job.key))])
      case BeginReuse(i) => s.(scans := s.scans[i := Reusing(p.job, p.seen.value, [])])
      case ReadNext(i) =>
        if |p.got| < |p.job.ids|
        then s.(scans := s.scans[i := Reusing(p.job, p.cell, p.got + [s.heap[p.cell][p.job.ids[|p.got|]]])])
        else s.(scans := s.scans[i := Done(p.job, p.got, Some(p.cell))])
      case Compute(i, verdicts) => s.(scans := s.scans[i := Computed(p.job, verdicts)])
      case BeginStore(i) =>
        State(s.hashes[p.job.key := digest(p.job.snapshot)], s.last, s.heap[s.next := map[]], s.next + 1,
              Some(i), s.scans[i := Filling(p.job, p.verdicts, s.next, 0)], s.authors)
      case FillNext(i) =>
        s.(heap := s.heap[p.cell := s.heap[p.cell][p.job.ids[p.filled] := p.verdicts[p.filled]]],
           scans := s.scans[i := p.(filled := p.filled + 1)])
      case Publish(i) =>
        s.(last := s.last[p.job.key := p.cell], lock := None, scans := s.scans[i := Done(p.job, p.verdicts, None)],
           authors := s.authors[p.cell := Completed(i, p.job, p.verdicts)])
  }

  /** An event that cannot happen leaves the state alone. */
  function Step(digest: string -> string, s: State, e: Event): State {
    if Due(digest, s, e) then Effect(digest, s, e) else s
  }

  function Run(digest: string -> string, events: seq<Event>): State {
    if events == [] then INITIAL
    else Step(digest, Run(digest, events[..|events| - 1]), events[|events| - 1])
  }

  /* ---- The invariant ---- */

  /** Cell a was published by a completed scan of policy key whose snapshot has this hash. */
  predicate PublishedAs(digest: string -> string, s: State, a: nat, key: string, hash: string) {
    a in s.authors && s.authors[a].job.key == key && digest(s.authors[a].job.snapshot) == hash
  }

  predicate Intact(s: State, a: nat)
    requires a in s.authors
  {
    var c := s.authors[a];
    && |c.verdicts| == |c.job.ids|
    && a in s.heap && a < s.next
    && s.heap[a] == Entries(c.job.ids, c.verdicts, |c.job.ids|)
  }

  /** The verdicts got so far are those one completed scan, of the same policy and under the same
      hash, gave for these checks. */
  predicate GotFrom(digest: string -> string, s: State, a: nat, job: Job, got: seq<Verdict>) {
    && PublishedAs(digest, s, a, job.key, digest(job.snapshot))
    && a in s.heap && |got| <= |job.ids|
    && (forall k | 0 <= k < |got| :: job.ids[k] in s.heap[a] && got[k] == s.heap[a][job.ids[k]])
  }

  predicate PhaseOK(digest: string -> string, s: State, i: nat)
    requires i in s.scans
  {
    match s.scans[i]
    case Started(_) => s.lock != Some(i)
    case Looked(job, hash, cell) =>
      s.lock != Some(i) && (cell.Some? ==> hash.Some? && PublishedAs(digest, s, cell.value, job.key, hash.value))
    case Reusing(job, cell, got) =>
      s.lock != Some(i) && GotFrom(digest, s, cell, job, got) && forall id <- job.ids :: id in s.heap[cell]
    case Computed(job, verdicts) => s.lock != Some(i) && |verdicts| == |job.ids|
    case Filling(job, verdicts, cell, n) =>
      && s.lock == Some(i) && n <= |job.ids| == |verdicts|
      && cell in s.heap && cell < s.next && cell !in s.authors
      && s.heap[cell] == Entries(job.ids, verdicts, n)
      && job.key in s.hashes && s.hashes[job.key] == digest(job.snapshot)
    case Done(job, verdicts, source) =>
      && s.lock != Some(i) && |verdicts| == |job.ids|
      && (source.Some? ==> GotFrom(digest, s, source.value, job, verdicts))
  }

  /** The lock's holder is between its two writes to the pair of this key. */
  predicate BeingWritten(s: State, key: string) {
    s.lock.Some? && s.lock.value in s.scans && s.scans[s.lock.value].job.key == key
  }

  ghost predicate CellsOK(s: State) {
    && (forall a <- s.heap :: a < s.next)
    && (forall a <- s.authors :: Intact(s, a))
  }

  ghost predicate PhasesOK(digest: string -> string, s: State) {
    && (forall i <- s.scans :: PhaseOK(digest, s, i))
    && (s.lock.Some? ==> s.lock.value in s.scans && s.scans[s.lock.value].Filling?)
  }

  /** Outside the writing section, hash and verdict map of a policy are of one completed scan. */
  ghost predicate PairsOK(digest: string -> string, s: State) {
    && (forall key <- s.last :: s.last[key] in s.authors && s.authors[s.last[key]].job.key == key)
    && (forall key <- s.last | !BeingWritten(s, key) ::
          key in s.hashes && PublishedAs(digest, s, s.last[key], key, s.hashes[key]))
  }

  ghost predicate Inv(digest: string -> string, s: State) {
    CellsOK(s) && PhasesOK(digest, s) && PairsOK(digest, s)
  }

  /** A published verdict map is never written again. */
  predicate KeepsPublished(s: State, t: State) {
    forall a <- s.authors :: a in t.authors && t.authors[a] == s.authors[a]
                             && (a in s.heap ==> a in t.heap && t.heap[a] == s.heap[a])
  }

  lemma StepKeepsPublished(digest: string -> string, s: State, e: Event)
    requires Inv(digest, s)
    ensures KeepsPublished(s, Step(digest, s, e))
  {
    assert e.i in s.scans ==> PhaseOK(digest, s, e.i);
    forall a <- s.authors ensures Intact(s, a) {}
  }

  lemma StepKeepsCells(digest: string -> string, s: State, e: Event)
    requires Inv(digest, s)
    ensures CellsOK(Step(digest, s, e))
  {
    var t := Step(digest, s, e);
    StepKeepsPublished(digest, s, e);
    assert e.i in s.scans ==> PhaseOK(digest, s, e.i);
    forall a <- t.authors ensures Intact(t, a) {
      assert a in s.authors ==> Intact(s, a);
    }
  }

  /** To a scan that is not writing only published cells matter. */
  lemma ReadersStayOK(digest: string -> string, s: State, t: State, i: nat)
    requires KeepsPublished(s, t) && CellsOK(s)
    requires i in s.scans && i in t.scans && t.scans[i] == s.scans[i] && !s.scans[i].Filling?
    requires PhaseOK(digest, s, i) && t.lock != Some(i)
    ensures PhaseOK(digest, t, i)
  {
  }

  /** Nobody else writes while a scan fills its cell. */
  lemma WriterStaysOK(digest: string -> string, s: State, e: Event, i: nat)
    requires Inv(digest, s) && i != e.i && i in s.scans && s.scans[i].Filling?
    ensures i in Step(digest, s, e).scans && PhaseOK(digest, Step(digest, s, e), i)
  {
    assert PhaseOK(digest, s, i);
    assert e.i in s.scans ==> PhaseOK(digest, s, e.i);
  }

  lemma SteppingReaderOK(digest: string -> string, s: State, e: Event)
    requires Inv(digest, s) && e.i in Step(digest, s, e).scans
    requires !e.BeginStore? && !e.FillNext? && !e.Publish?
    ensures PhaseOK(digest, Step(digest, s, e), e.i)
  {
    assert e.i in s.scans ==> PhaseOK(digest, s, e.i);
  }

  lemma SteppingWriterOK(digest: string -> string, s: State, e: Event)
    requires Inv(digest, s) && e.i in Step(digest, s, e).scans
    requires e.BeginStore? || e.FillNext? || e.Publish?
    ensures PhaseOK(digest, Step(digest, s, e), e.i)
  {
    assert e.i in s.scans ==> PhaseOK(digest, s, e.i);
  }

  lemma StepLeavesOthers(digest: string -> string, s: State, e: Event, i: nat)
    requires i != e.i
    ensures var t := Step(digest, s, e);
            && (i in t.scans <==> i in s.scans)
            && (i in s.scans ==> t.scans[i] == s.scans[i])
            && (t.lock == Some(i) ==> s.lock == Some(i))
  {
  }

  lemma OthersStayOK(digest: string -> string, s: State, e: Event, i: nat)
    requires Inv(digest, s) && i != e.i && i in s.scans
    ensures i in Step(digest, s, e).scans && PhaseOK(digest, Step(digest, s, e), i)
  {
    if s.scans[i].Filling? {
      WriterStaysOK(digest, s, e, i);
    } else {
      assert PhaseOK(digest, s, i);
      StepLeavesOthers(digest, s, e, i);
      StepKeepsPublished(digest, s, e);
      ReadersStayOK(digest, s, Step(digest, s, e), i);
    }
  }

  lemma StepKeepsPhases(digest: string -> string, s: State, e: Event)
    requires Inv(digest, s)
    ensures PhasesOK(digest, Step(digest, s, e))
  {
    var t := Step(digest, s, e);
    forall i <- t.scans ensures PhaseOK(digest, t, i) {
      if i != e.i {
        OthersStayOK(digest, s, e, i);
      } else if e.BeginStore? || e.FillNext? || e.Publish? {
        SteppingWriterOK(digest, s, e);
      } else {
        SteppingReaderOK(digest, s, e);
      }
    }
    assert e.i in s.scans ==> PhaseOK(digest, s, e.i);
  }

  lemma WritingKeepsPairs(digest: string -> string, s: State, e: Event)
    requires Inv(digest, s) && (e.BeginStore? || e.Publish?)
    ensures PairsOK(digest, Step(digest, s, e))
  {
    StepKeepsPublished(digest, s, e);
    assert e.i in s.scans ==> PhaseOK(digest, s, e.i);
  }

  lemma ReadingLeavesPairs(digest: string -> string, s: State, e: Event)
    requires Inv(digest, s) && !e.BeginStore? && !e.Publish?
    ensures var t := Step(digest, s, e);
            && t.last == s.last && t.hashes == s.hashes && t.authors == s.authors && t.lock == s.lock
            && (s.lock.Some? ==> s.lock.value in t.scans && t.scans[s.lock.value].job == s.scans[s.lock.value].job)
  {
    assert e.i in s.scans ==> PhaseOK(digest, s, e.i);
  }

  lemma SamePairs(digest: string -> string, s: State, t: State)
    requires PairsOK(digest, s) && PhasesOK(digest, s)
    requires t.last == s.last && t.hashes == s.hashes && t.authors == s.authors && t.lock == s.lock
    requires s.lock.Some? ==> s.lock.value in t.scans && t.scans[s.lock.value].job == s.scans[s.lock.value].job
    ensures PairsOK(digest, t)
  {
    assert forall key :: BeingWritten(t, key) == BeingWritten(s, key);
  }

  lemma StepKeepsInv(digest: string -> string, s: State, e: Event)
    requires Inv(digest, s)
    ensures Inv(digest, Step(digest, s, e))
  {
    StepKeepsCells(digest, s, e);
    StepKeepsPhases(digest, s, e);
    if e.BeginStore? || e.Publish? {
      WritingKeepsPairs(digest, s, e);
    } else {
      ReadingLeavesPairs(digest, s, e);
      SamePairs(digest, s, Step(digest, s, e));
    }
  }

  lemma {:induction false} InvAlwaysHolds(digest: string -> string, events: seq<Event>)
    ensures Inv(digest, Run(digest, events))
  {
    if events != [] {
      var s, e := Run(digest, events[..|events| - 1]), events[|events| - 1];
      InvAlwaysHolds(digest, events[..|events| - 1]);
      StepKeepsInv(digest, s, e);
    }
  }

  /* ---- Authors are scans that ran ---- */

  /** A recorded author is a scan of this run, now at its end. */
  predicate Ran(s: State, c: Completed) {
    c.scan in s.scans && s.scans[c.scan] == Done(c.job, c.verdicts, None)
  }

  ghost predicate AuthorsOK(s: State) {
    forall a <- s.authors :: Ran(s, s.authors[a])
  }

  /** A scan at its end takes no further step. */
  lemma DoneIsFinal(digest: string -> string, s: State, e: Event, i: nat)
    requires i in s.scans && s.scans[i].Done?
    ensures i in Step(digest, s, e).scans && Step(digest, s, e).scans[i] == s.scans[i]
  {
  }

  lemma NewAuthorRan(digest: string -> string, s: State, e: Event, a: nat)
    requires a in Step(digest, s, e).authors && (a !in s.authors || Step(digest, s, e).authors[a] != s.authors[a])
    ensures Ran(Step(digest, s, e), Step(digest, s, e).authors[a])
  {
  }

  lemma StepKeepsAuthors(digest: string -> string, s: State, e: Event)
    requires AuthorsOK(s)
    ensures AuthorsOK(Step(digest, s, e))
  {
    var t := Step(digest, s, e);
    forall a <- t.authors ensures Ran(t, t.authors[a]) {
      if a in s.authors && t.authors[a] == s.authors[a] {
        assert Ran(s, s.authors[a]);
        DoneIsFinal(digest, s, e, s.authors[a].scan);
      } else {
        NewAuthorRan(digest, s, e, a);
      }
    }
  }

  lemma {:induction false} AuthorsAlwaysRan(digest: string -> string, events: seq<Event>)
    ensures AuthorsOK(Run(digest, events))
  {
    if events != [] {
      AuthorsAlwaysRan(digest, events[..|events| - 1]);
      StepKeepsAuthors(digest, Run(digest, events[..|events| - 1]), events[|events| - 1]);
    }
  }

  /* ---- What every interleaving guarantees ---- */

  /** Scan j of this run is completed, computed its verdicts itself, for this policy and under a
      snapshot with this hash, and cell a holds exactly its verdicts. */
  predicate Wrote(digest: string -> string, s: State, j: nat, a: nat, key: string, hash: string) {
    && j in s.scans && s.scans[j].Done? && s.scans[j].source.None?
    && s.scans[j].job.key == key && digest(s.scans[j].job.snapshot) == hash
    && |s.scans[j].verdicts| == |s.scans[j].job.ids|
    && a in s.heap && s.heap[a] == Entries(s.scans[j].job.ids, s.scans[j].verdicts, |s.scans[j].job.ids|)
  }

  /** One scan that ran in s wrote cell a. */
  ghost predicate FromOneScan(digest: string -> string, s: State, a: nat, key: string, hash: string) {
    exists j :: Wrote(digest, s, j, a, key, hash)
  }

  lemma PublishedIsWritten(digest: string -> string, s: State, a: nat, key: string, hash: string)
    requires Inv(digest, s) && AuthorsOK(s) && PublishedAs(digest, s, a, key, hash)
    ensures Wrote(digest, s, s.authors[a].scan, a, key, hash)
  {
    assert Intact(s, a) && Ran(s, s.authors[a]);
  }

  /** In every interleaving of any number of scans, the pair of hash and verdict map that a scan
      has read, or that is stored while nobody is writing, is of a single completed scan. */
  lemma PairsAreOfOneScan(digest: string -> string, events: seq<Event>)
    ensures var s := Run(digest, events);
            && (forall i <- s.scans | s.scans[i].Looked? && s.scans[i].seen.Some? ::
                  s.scans[i].hash.Some?
                  && FromOneScan(digest, s, s.scans[i].seen.value, s.scans[i].job.key, s.scans[i].hash.value))
            && (s.lock.None? ==> forall key <- s.last ::
                  key in s.hashes && FromOneScan(digest, s, s.last[key], key, s.hashes[key]))
  {
    InvAlwaysHolds(digest, events);
    AuthorsAlwaysRan(digest, events);
    var s := Run(digest, events);
    forall a, key, hash | PublishedAs(digest, s, a, key, hash) ensures FromOneScan(digest, s, a, key, hash) {
      PublishedIsWritten(digest, s, a, key, hash);
    }
    forall i <- s.scans ensures PhaseOK(digest, s, i) {}
  }

  /** The entry of a verdict map is the verdict of the last check with that ID. */
  lemma {:induction false} EntryIsAVerdict(ids: seq<string>, verdicts: seq<Verdict>, n: nat, id: string) returns (k: nat)
    requires n <= |ids| == |verdicts| && id in Entries(ids, verdicts, n)
    ensures k < n && ids[k] == id && verdicts[k] == Entries(ids, verdicts, n)[id]
    ensures forall l | k < l < n :: ids[l] != id
  {
    if ids[n - 1] == id {
      k := n - 1;
    } else {
      k := EntryIsAVerdict(ids, verdicts, n - 1, id);
    }
  }

  /** A scan that reused verdicts, reading them one by one without the lock while others ran,
      reports what one completed scan of its policy gave for its checks under a snapshot of the
      same hash: all its verdicts are of that one scan. */
  lemma ReuseIsOfOneScan(digest: string -> string, events: seq<Event>, i: nat) returns (j: nat)
    requires i in Run(digest, events).scans
    requires Run(digest, events).scans[i].Done? && Run(digest, events).scans[i].source.Some?
    ensures var s := Run(digest, events);
            var Done(job, verdicts, source) := s.scans[i];
            && Wrote(digest, s, j, source.value, job.key, digest(job.snapshot))
            && |verdicts| == |job.ids|
            && forall k | 0 <= k < |job.ids| ::
                 exists l :: 0 <= l < |s.scans[j].job.ids| && s.scans[j].job.ids[l] == job.ids[k]
                             && s.scans[j].verdicts[l] == verdicts[k]
  {
    InvAlwaysHolds(digest, events);
    AuthorsAlwaysRan(digest, events);
    var s := Run(digest, events);
    assert PhaseOK(digest, s, i);
    var Done(job, verdicts, source) := s.scans[i];
    j := s.authors[source.value].scan;
    PublishedIsWritten(digest, s, source.value, job.key, digest(job.snapshot));
    var d := s.scans[j];
    forall k | 0 <= k < |job.ids|
      ensures exists l :: 0 <= l < |d.job.ids| && d.job.ids[l] == job.ids[k] && d.verdicts[l] == verdicts[k]
    {
      var l := EntryIsAVerdict(d.job.ids, d.verdicts, |d.job.ids|, job.ids[k]);
    }
  }

  lemma {:induction false} EachIDHasAnEntry(ids: seq<string>, verdicts: seq<Verdict>, n: nat, k: nat)
    requires k < n <= |ids| == |verdicts|
    ensures ids[k] in Entries(ids, verdicts, n)
  {
    if k < n - 1 {
      EachIDHasAnEntry(ids, verdicts, n - 1, k);
    }
  }

  /** Scan j wrote what this one has read, under a snapshot of the hash this one read, which is that of
      its own snapshot, and gave a verdict for each of its checks. */
  predicate CoveredBy(digest: string -> string, s: State, p: Phase, j: nat)
    requires p.Looked?
  {
    && p.seen.Some? && p.hash == Some(digest(p.job.snapshot))
    && Wrote(digest, s, j, p.seen.value, p.job.key, digest(p.job.snapshot))
    && forall id <- p.job.ids :: id in s.scans[j].job.ids
  }

  lemma MaySkipIfCovered(digest: string -> string, s: State, p: Phase, j: nat)
    requires p.Looked? && p.job.ids != [] && CoveredBy(digest, s, p, j)
    ensures MaySkip(digest, s, p)
  {
    var d := s.scans[j];
    forall id <- p.job.ids ensures id in s.heap[p.seen.value] {
      var k :| 0 <= k < |d.job.ids| && d.job.ids[k] == id;
      EachIDHasAnEntry(d.job.ids, d.verdicts, |d.job.ids|, k);
    }
  }

  lemma CoveredIfMaySkip(digest: string -> string, s: State, p: Phase, j: nat)
    requires p.Looked? && MaySkip(digest, s, p)
    requires Wrote(digest, s, j, p.seen.value, p.job.key, digest(p.job.snapshot))
    ensures CoveredBy(digest, s, p, j)
  {
    var d := s.scans[j];
    forall id <- p.job.ids ensures id in d.job.ids {
      var k := EntryIsAVerdict(d.job.ids, d.verdicts, |d.job.ids|, id);
    }
  }

  /** In every interleaving, a scan of some checks that has read the remembered pair goes on to reuse
      verdicts exactly if one completed scan of its policy, under a snapshot of the same hash, gave
      one for each of its checks; otherwise, and for no checks, it computes its own. */
  lemma ReusesExactlyWhenCovered(digest: string -> string, events: seq<Event>, i: nat, verdicts: seq<Verdict>)
    requires i in Run(digest, events).scans && Run(digest, events).scans[i].Looked?
    requires |verdicts| == |Run(digest, events).scans[i].job.ids|
    ensures var s := Run(digest, events);
            var p := s.scans[i];
            var covered := p.job.ids != [] && exists j :: CoveredBy(digest, s, p, j);
            && Step(digest, s, BeginReuse(i)).scans[i] == (if covered then Reusing(p.job, p.seen.value, []) else p)
            && Step(digest, s, Compute(i, verdicts)).scans[i] == (if covered then p else Computed(p.job, verdicts))
  {
    InvAlwaysHolds(digest, events);
    AuthorsAlwaysRan(digest, events);
    var s := Run(digest, events);
    var p := s.scans[i];
    assert PhaseOK(digest, s, i);
    if MaySkip(digest, s, p) {
      var j := s.authors[p.seen.value].scan;
      PublishedIsWritten(digest, s, p.seen.value, p.job.key, digest(p.job.snapshot));
      CoveredIfMaySkip(digest, s, p, j);
    } else if j :| p.job.ids != [] && CoveredBy(digest, s, p, j) {
      MaySkipIfCovered(digest, s, p, j);
    }
  }

  /** Scan i can take a step now. */
  ghost predicate CanGoOn(digest: string -> string, s: State, i: nat) {
    exists e: Event :: e.i == i && i in s.scans && Due(digest, s, e)
  }

  function NextEvent(digest: string -> string, s: State, i: nat, verdicts: seq<Verdict>): Event
    requires i in s.scans
  {
    var p := s.scans[i];
    match p
    case Started(_) => Look(i)
    case Looked(_, _, _) => if MaySkip(digest, s, p) then BeginReuse(i) else Compute(i, verdicts)
    case Reusing(_, _, _) => ReadNext(i)
    case Computed(_, _) => BeginStore(i)
    case Filling(job, _, _, filled) => if filled < |job.ids| then FillNext(i) else Publish(i)
    case Done(_, _, _) => Look(i)
  }

  lemma GoesOn(digest: string -> string, s: State, i: nat)
    requires Inv(digest, s) && i in s.scans && !s.scans[i].Done?
    requires s.scans[i].Started? || s.scans[i].Computed? ==> s.lock.None?
    ensures CanGoOn(digest, s, i)
  {
    var p := s.scans[i];
    assert PhaseOK(digest, s, i);
    var e := NextEvent(digest, s, i, seq(|p.job.ids|, _ => PASS));
    assert e.i == i && Due(digest, s, e);
  }

  /** No interleaving gets stuck: a scan that has not ended can take a step, or the one that holds
      the lock can. */
  lemma NobodyIsStuck(digest: string -> string, events: seq<Event>, i: nat)
    requires i in Run(digest, events).scans && !Run(digest, events).scans[i].Done?
    ensures var s := Run(digest, events);
            CanGoOn(digest, s, i) || (s.lock.Some? && CanGoOn(digest, s, s.lock.value))
  {
    InvAlwaysHolds(digest, events);
    var s := Run(digest, events);
    if s.lock.Some? {
      GoesOn(digest, s, s.lock.value);
    } else {
      GoesOn(digest, s, i);
    }
  }

  lemma RunKeepsPublished(digest: string -> string, events: seq<Event>, e: Event)
    ensures KeepsPublished(Run(digest, events), Run(digest, events + [e]))
  {
    InvAlwaysHolds(digest, events);
    assert (events + [e])[..|events|] == events;
    StepKeepsPublished(digest, Run(digest, events), e);
  }

  /** Once published, a verdict map never changes, whatever runs afterwards. */
  lemma {:induction false} PublishedForever(digest: string -> string, events: seq<Event>, later: seq<Event>, a: nat)
    requires a in Run(digest, events).authors
    ensures a in Run(digest, events).heap && a in Run(digest, events + later).heap
    ensures a in Run(digest, events + later).authors
    ensures Run(digest, events + later).heap[a] == Run(digest, events).heap[a]
    decreases later
  {
    InvAlwaysHolds(digest, events);
    assert Intact(Run(digest, events), a);
    if later == [] {
      assert events + later == events;
    } else {
      var front, e := later[..|later| - 1], later[|later| - 1];
      PublishedForever(digest, events, front, a);
      assert events + later == (events + front) + [e];
      RunKeepsPublished(digest, events + front, e);
    }
  }

  /* ---- The skip under concurrency ---- */

  /** The verdict an adapter would give: policy, snapshot, check ID. */
  type Oracle = (string, string, string) -> Verdict

  predicate JudgedBy(v: Oracle, job: Job, verdicts: seq<Verdict>) {
    |verdicts| == |job.ids| && forall k | 0 <= k < |job.ids| :: verdicts[k] == v(job.key, job.snapshot, job.ids[k])
  }

  /** Whenever a scan computes verdicts, they are the oracle's. */
  ghost predicate ComputesAs(digest: string -> string, v: Oracle, events: seq<Event>) {
    forall n | 0 <= n < |events| :: AnswersAs(v, Run(digest, events[..n]), events[n])
  }

  predicate AnswersAs(v: Oracle, s: State, e: Event) {
    e.Compute? && e.i in s.scans && s.scans[e.i].Looked? && |e.verdicts| == |s.scans[e.i].job.ids|
    ==> JudgedBy(v, s.scans[e.i].job, e.verdicts)
  }

  /** A scan that has verdicts of its own has the oracle's. */
  predicate OwnAsJudged(v: Oracle, p: Phase) {
    match p
    case Computed(job, verdicts) => JudgedBy(v, job, verdicts)
    case Filling(job, verdicts, _, _) => JudgedBy(v, job, verdicts)
    case Done(job, verdicts, source) => source.None? ==> JudgedBy(v, job, verdicts)
    case _ => true
  }

  lemma StepKeepsJudged(digest: string -> string, v: Oracle, s: State, e: Event)
    requires AnswersAs(v, s, e) && forall i <- s.scans :: OwnAsJudged(v, s.scans[i])
    ensures forall i <- Step(digest, s, e).scans :: OwnAsJudged(v, Step(digest, s, e).scans[i])
  {
    var t := Step(digest, s, e);
    forall i <- t.scans ensures OwnAsJudged(v, t.scans[i]) {
      if i != e.i {
        StepLeavesOthers(digest, s, e, i);
      } else if i in s.scans {
        assert OwnAsJudged(v, s.scans[i]);
      }
    }
  }

  lemma {:induction false} OwnAlwaysJudged(digest: string -> string, v: Oracle, events: seq<Event>)
    requires ComputesAs(digest, v, events)
    ensures forall i <- Run(digest, events).scans :: OwnAsJudged(v, Run(digest, events).scans[i])
  {
    if events != [] {
      var front := events[..|events| - 1];
      forall n | 0 <= n < |front| ensures AnswersAs(v, Run(digest, front[..n]), front[n]) {
        assert front[..n] == events[..n] && AnswersAs(v, Run(digest, events[..n]), events[n]);
      }
      OwnAlwaysJudged(digest, v, front);
      StepKeepsJudged(digest, v, Run(digest, front), events[|front|]);
    }
  }

  ghost predicate DistinctHashes(digest: string -> string, s: State) {
    forall i, j | i in s.scans && j in s.scans && digest(s.scans[i].job.snapshot) == digest(s.scans[j].job.snapshot) ::
      s.scans[i].job.snapshot == s.scans[j].job.snapshot
  }

  /** The skip is transparent in every interleaving: if verdicts are computed as a function of
      policy, snapshot and check, and the snapshots seen have different hashes, then every scan that
      ends, reusing or not, reports what it would have computed under its own snapshot. */
  lemma SkipIsTransparent(digest: string -> string, v: Oracle, events: seq<Event>, i: nat)
    requires ComputesAs(digest, v, events) && DistinctHashes(digest, Run(digest, events))
    requires i in Run(digest, events).scans && Run(digest, events).scans[i].Done?
    ensures JudgedBy(v, Run(digest, events).scans[i].job, Run(digest, events).scans[i].verdicts)
  {
    var s := Run(digest, events);
    OwnAlwaysJudged(digest, v, events);
    assert OwnAsJudged(v, s.scans[i]);
    if s.scans[i].source.Some? {
      var j := ReuseIsOfOneScan(digest, events, i);
      assert OwnAsJudged(v, s.scans[j]) && s.scans[j].job.snapshot == s.scans[i].job.snapshot;
    }
  }
}
