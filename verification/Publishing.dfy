/** What one run of tools/publish_core.py does to the releases on the hosting site, wherever it is interrupted,
    and what any sequence of runs keeps. */
module Publishing {
  import opened Wrappers

  /** Version and build, compared as identity() compares them. */
  datatype Id = Id(major: nat, minor: nat, patch: nat, build: nat) {
    predicate Less(o: Id) {
      || major < o.major
      || (major == o.major && minor < o.minor)
      || (major == o.major && minor == o.minor && patch < o.patch)
      || (major == o.major && minor == o.minor && patch == o.patch && build < o.build)
    }
  }

  /** The tuple of identity(). */
  function Tuple(id: Id): seq<nat> {
    [id.major, id.minor, id.patch, id.build]
  }

  lemma LessIsTupleOrder(a: Id, b: Id)
    ensures a.Less(b) <==> Precedes(Tuple(a), Tuple(b))
  {
    var x, y := Tuple(a), Tuple(b);
    if a.Less(b) {
      var k := if a.major < b.major then 0 else if a.minor < b.minor then 1 else if a.patch < b.patch then 2 else 3;
      assert x[..k] == y[..k] && x[k] < y[k];
    }
    if k :| 0 <= k < |x| && k < |y| && x[..k] == y[..k] && x[k] < y[k] {
      assert forall i | 0 <= i < k :: x[i] == x[..k][i] == y[..k][i] == y[i];
      assert k > 0 ==> x[0] == y[0];
      assert k > 1 ==> x[1] == y[1];
      assert k > 2 ==> x[2] == y[2];
    }
  }

  /** Archive contents; two archives with the same signed size and hash are taken to be equal. */
  type Blob = int

  /** The verified descriptors of both architectures. `facts` are the signed fields this code only compares. */
  datatype Desc = Desc(id: Id, arm: Blob, arm64: Blob, facts: int)

  /** A signed manifest: the descriptors, and the time stamp that makes each signature differ. */
  datatype Envelope = Envelope(desc: Desc, stamp: int)

  datatype Asset = Manifest | Sums | Metadata | Arm | Arm64

  /** The uploaded assets of a versioned release. An unreadable manifest counts as none. */
  datatype Release = Release(draft: bool, manifest: Option<Envelope>, sums: bool, metadata: bool,
                             arm: Option<Blob>, arm64: Option<Blob>) {
    predicate Complete() {
      manifest.Some? && sums && metadata && arm.Some? && arm64.Some?
    }

    predicate Matches(d: Desc) {
      arm == Some(d.arm) && arm64 == Some(d.arm64)
    }
  }

  datatype Stable = Stable(draft: bool, feed: Option<Envelope>)

  /** The site: the release of each tag, which names one version and build, and the stable feed. */
  datatype Site = Site(releases: map<Id, Release>, stable: Option<Stable>) {
    function Feed(): Option<Envelope> {
      if stable.Some? then stable.value.feed else None
    }
  }

  /** Where a run breaks off: at a read, while assets are uploaded, or after one of its writes. */
  datatype Break =
    | Early
    | Creating(uploaded: set<Asset>)
    | Created
    | Edited
    | ReadBack
    | FeedMade
    | FeedDeleted
    | Never

  datatype Job = Job(local: Envelope, releaseOnly: bool, break_: Break)

  /** The release as `gh release create` leaves it, with the assets that got there. */
  function Draft(e: Envelope, up: set<Asset>): Release {
    Release(true, if Manifest in up then Some(e) else None, Sums in up, Metadata in up,
            if Arm in up then Some(e.desc.arm) else None, if Arm64 in up then Some(e.desc.arm64) else None)
  }

  const ALL: set<Asset> := {Manifest, Sums, Metadata, Arm, Arm64}

  function Put(s: Site, id: Id, r: Release): Site {
    s.(releases := s.releases[id := r])
  }

  function WithFeed(s: Site, feed: Option<Envelope>): Site {
    s.(stable := Some(Stable(false, feed)))
  }

  /** The check against the feed that is up now. */
  predicate Allowed(s: Site, d: Desc) {
    && (s.stable.Some? ==> !s.stable.value.draft)
    && (s.Feed().Some? ==>
          !d.id.Less(s.Feed().value.desc.id) && (d.id == s.Feed().value.desc.id ==> s.Feed().value.desc == d))
  }

  /** existing_manifest: a release there already must hold the same artifacts, and a complete draft is published. */
  function Existing(s: Site, j: Job): (Site, Option<Envelope>)
    requires j.local.desc.id in s.releases
  {
    var d := j.local.desc;
    var r := s.releases[d.id];
    if r.manifest.None? || r.manifest.value.desc != d then (s, None)
    else if !r.draft then (s, if r.Matches(d) && !j.break_.ReadBack? then r.manifest else None)
    else if !r.Complete() || !r.Matches(d) || j.break_.Created? then (s, None)
    else (Put(s, d.id, r.(draft := false)), if j.break_.Edited? || j.break_.ReadBack? then None else r.manifest)
  }

  /** The versioned release, and the envelope to advance the feed to unless the run broke off. */
  function Versioned(s: Site, j: Job): (Site, Option<Envelope>) {
    var e := j.local;
    if e.desc.id in s.releases then Existing(s, j)
    else if j.break_.Creating? then (Put(s, e.desc.id, Draft(e, j.break_.uploaded)), None)
    else if j.break_.Created? then (Put(s, e.desc.id, Draft(e, ALL)), None)
    else (Put(s, e.desc.id, Draft(e, ALL).(draft := false)), if j.break_.Edited? || j.break_.ReadBack? then None else Some(e))
  }

  /** `gh release upload --clobber` deletes the old manifest before it uploads the new one. */
  function Advance(s: Site, e: Envelope, break_: Break): Site {
    var t := if s.stable.None? then WithFeed(s, None) else s;
    match break_
    case FeedMade => t
    case FeedDeleted => WithFeed(t, None)
    case _ => WithFeed(t, Some(e))
  }

  function Publish(s: Site, j: Job): Site {
    if j.break_.Early? || !Allowed(s, j.local.desc) then s
    else
      var (t, e) := Versioned(s, j);
      if e.None? || j.releaseOnly || (s.Feed().Some? && s.Feed().value.desc == j.local.desc) then t
      else Advance(t, e.value, j.break_)
  }

  /** Between runs somebody may delete a draft that has to be redone. */
  datatype Event = Published(job: Job) | DraftRemoved(id: Id)

  function Next(s: Site, e: Event): Site {
    match e
    case Published(j) => Publish(s, j)
    case DraftRemoved(id) =>
      if id in s.releases && s.releases[id].draft then s.(releases := s.releases - {id}) else s
  }

  function Run(s: Site, events: seq<Event>): Site
    decreases |events|
  {
    if events == [] then s else Next(Run(s, events[..|events| - 1]), events[|events| - 1])
  }

  const NOTHING := Site(map[], None)

  // ---- Safety --------------------------------------------------------------------------------------------

  /** A public release holds what its manifest signs for its own tag. */
  predicate Sound(id: Id, r: Release) {
    !r.draft ==> r.Complete() && r.manifest.value.desc.id == id && r.Matches(r.manifest.value.desc)
  }

  predicate Inv(s: Site) {
    && (forall id | id in s.releases :: Sound(id, s.releases[id]))
    && (s.Feed().Some? ==> Backed(s, s.Feed().value))
  }

  /** The envelope is the manifest of its public release, whose archives match it. */
  predicate Backed(s: Site, e: Envelope) {
    var id := e.desc.id;
    id in s.releases && !s.releases[id].draft && s.releases[id].manifest == Some(e) && s.releases[id].Matches(e.desc)
  }

  lemma VersionedKeeps(s: Site, j: Job)
    requires Inv(s)
    ensures var (t, e) := Versioned(s, j);
            && Inv(t) && t.stable == s.stable
            && (e.Some? ==> Backed(t, e.value) && e.value.desc == j.local.desc)
            && (forall id | id in s.releases && !s.releases[id].draft :: id in t.releases && t.releases[id] == s.releases[id])
  {
  }

  lemma AdvanceKeeps(s: Site, e: Envelope, b: Break)
    requires Inv(s) && Backed(s, e)
    ensures Inv(Advance(s, e, b)) && Advance(s, e, b).releases == s.releases
  {
  }

  lemma Inductive(s: Site, e: Event)
    requires Inv(s)
    ensures Inv(Next(s, e))
    ensures forall id | id in s.releases && !s.releases[id].draft :: id in Next(s, e).releases && Next(s, e).releases[id] == s.releases[id]
  {
    match e
    case Published(j) =>
      hide Inv, Backed, Versioned, Advance;
      VersionedKeeps(s, j);
      var (t, env) := Versioned(s, j);
      if env.Some? {
        AdvanceKeeps(t, env.value, j.break_);
      }
      assert j.break_.Early? || !Allowed(s, j.local.desc) ==> Next(s, e) == s;
    case DraftRemoved(id) =>
  }

  /** Whatever is interrupted: the feed only ever carries the manifest of a public release whose archives match
      it, and a public release never changes again. */
  lemma {:induction false} RunKeeps(s: Site, events: seq<Event>)
    requires Inv(s)
    ensures Inv(Run(s, events))
    ensures forall id | id in s.releases && !s.releases[id].draft ::
              id in Run(s, events).releases && Run(s, events).releases[id] == s.releases[id]
    decreases |events|
  {
    hide Inv, Next;
    if events != [] {
      RunKeeps(s, events[..|events| - 1]);
      Inductive(Run(s, events[..|events| - 1]), events[|events| - 1]);
    }
  }

  /** A feed that is up is never replaced by a lower version or build, nor by other artifacts of the same one. */
  lemma FeedNeverFalls(s: Site, e: Event)
    requires s.Feed().Some? && Next(s, e).Feed().Some?
    ensures var was, now := s.Feed().value.desc, Next(s, e).Feed().value.desc;
            !Precedes(Tuple(now.id), Tuple(was.id)) && !now.id.Less(was.id) && (now.id == was.id ==> now == was)
  {
    LessIsTupleOrder(Next(s, e).Feed().value.desc.id, s.Feed().value.desc.id);
  }

  /** A rerun of a published candidate advances the feed to the envelope already published, whatever time stamp
      the local one carries, and leaves the release alone. */
  lemma RerunReusesEnvelope(s: Site, j: Job)
    requires Inv(s) && j.local.desc.id in s.releases && !s.releases[j.local.desc.id].draft
    ensures Publish(s, j).releases == s.releases
    ensures Publish(s, j).Feed() == s.Feed() || Publish(s, j).Feed() == None
            || Publish(s, j).Feed() == s.releases[j.local.desc.id].manifest
    ensures s.releases[j.local.desc.id].manifest.value.desc != j.local.desc ==> Publish(s, j) == s
  {
  }

  /** The tuple of the candidate is not below that of the feed that is up, and equal only with the same artifacts. */
  predicate MayFollow(s: Site, d: Desc) {
    && (s.stable.Some? ==> !s.stable.value.draft)
    && (s.Feed().Some? ==>
          var up := s.Feed().value.desc;
          !Precedes(Tuple(d.id), Tuple(up.id)) && (d.id == up.id ==> d == up))
  }

  lemma AllowedExactly(s: Site, d: Desc)
    ensures Allowed(s, d) <==> MayFollow(s, d)
  {
    if s.Feed().Some? { LessIsTupleOrder(d.id, s.Feed().value.desc.id); }
  }

  /** A run whose candidate is not below the feed that is up, nor other artifacts of the same version, and that
      meets no other artifacts or unfinished draft of its tag reaches the feed. */
  lemma FinishedRunAdvances(s: Site, j: Job)
    requires Inv(s) && MayFollow(s, j.local.desc) && j.break_.Never? && !j.releaseOnly
    requires var id := j.local.desc.id;
             id in s.releases ==>
               s.releases[id].Complete() && s.releases[id].manifest.value.desc == j.local.desc && s.releases[id].Matches(j.local.desc)
    ensures Publish(s, j).Feed().Some? && Publish(s, j).Feed().value.desc == j.local.desc
  {
    AllowedExactly(s, j.local.desc);
  }

  // ---- What was shown before ---------------------------------------------------------------------------------

  /** The last feed anybody could see. */
  function Shown(s: Site, events: seq<Event>): Option<Envelope>
    decreases |events|
  {
    if Run(s, events).Feed().Some? || events == [] then Run(s, events).Feed()
    else Shown(s, events[..|events| - 1])
  }

  /** The run lowers what clients have seen. */
  predicate Lowers(s: Site, events: seq<Event>, e: Event) {
    var was, now := Shown(s, events), Next(Run(s, events), e).Feed();
    was.Some? && now.Some? && now.value.desc.id.Less(was.value.desc.id)
  }

  /** The run puts its candidate up as the feed, as far as the state before and its break tell. */
  predicate PutsUp(s: Site, j: Job) {
    && !j.break_.Early? && !j.break_.FeedMade? && !j.break_.FeedDeleted? && !j.releaseOnly
    && Allowed(s, j.local.desc) && Versioned(s, j).1.Some?
  }

  lemma FeedAfter(s: Site, j: Job)
    ensures var f := Publish(s, j).Feed();
            && (s.Feed().None? ==> (f.Some? <==> PutsUp(s, j)))
            && (f.Some? ==> f == s.Feed() || f.value.desc == j.local.desc)
  {
  }

  /** That happens exactly when an interrupted upload had left no feed, and a candidate lower than the feed it
      deleted is put up: the comparison only looks at a feed that is up. */
  lemma LowersExactly(s: Site, events: seq<Event>, e: Event)
    ensures Lowers(s, events, e) <==>
            && Run(s, events).Feed().None? && Shown(s, events).Some?
            && e.Published? && PutsUp(Run(s, events), e.job)
            && e.job.local.desc.id.Less(Shown(s, events).value.desc.id)
  {
    hide Publish, PutsUp, Shown;
    var t := Run(s, events);
    ShownIsUp(s, events);
    if e.Published? {
      FeedAfter(t, e.job);
    }
    if t.Feed().Some? && Next(t, e).Feed().Some? {
      FeedNeverFalls(t, e);
    }
  }

  lemma ShownIsUp(s: Site, events: seq<Event>)
    ensures Run(s, events).Feed().Some? ==> Shown(s, events) == Run(s, events).Feed()
  {
  }

  const OLD := Envelope(Desc(Id(1, 80, 0, 1), 1, 2, 0), 10)
  const NEW := Envelope(Desc(Id(1, 82, 0, 1), 3, 4, 0), 20)
  const NEWER := Envelope(Desc(Id(1, 84, 0, 1), 5, 6, 0), 30)

  /** Such a run exists: 1.82 is up, publishing 1.84 dies after the deletion, and 1.80 is then accepted. */
  lemma LowerFeedCanFollow()
    ensures Lowers(NOTHING, [Published(Job(NEW, false, Never)), Published(Job(NEWER, false, FeedDeleted))],
                   Published(Job(OLD, false, Never)))
  {
    var a, b, c := Published(Job(NEW, false, Never)), Published(Job(NEWER, false, FeedDeleted)), Published(Job(OLD, false, Never));
    assert [a, b][..1] == [a] && [a][..0] == [];
    var s1 := Next(NOTHING, a);
    assert s1 == Site(map[NEW.desc.id := Draft(NEW, ALL).(draft := false)], Some(Stable(false, Some(NEW))));
    var s2 := Next(s1, b);
    assert s2.stable == Some(Stable(false, None)) && OLD.desc.id !in s2.releases;
    assert Run(NOTHING, [a]) == s1 && Run(NOTHING, [a, b]) == s2;
    assert Shown(NOTHING, [a]) == Some(NEW);
    assert s2.Feed() == None && [a, b] != [] && Shown(NOTHING, [a, b]) == Shown(NOTHING, [a, b][..1]);
    assert Next(s2, c).Feed() == Some(OLD);
  }
}
