/** tools/publish_core.py as the program it is: calls that change the site one after the other, any of which may
    raise. Each run is proved to be one job of the publishing machine. */
module Publisher {
  import opened Wrappers
  import opened Publishing

  /** Which calls of a run work. `status` is the HTTP error of an attempt to read an archive back, if any. */
  datatype Net = Net(findRelease: bool, findStable: bool, readFeed: bool, readRelease: bool,
                     uploaded: Option<set<Asset>>, edit: bool, status: (bool, nat) -> Option<nat>,
                     makeStable: bool, delete: bool, upload: bool)

  const ATTEMPTS := 3

  predicate Transient(code: nat) {
    code == 404 || code == 500 || code == 502 || code == 503 || code == 504
  }

  /** One of the attempts answers, and only errors that may pass came before it. */
  predicate Answers(status: nat -> Option<nat>) {
    exists n: nat | n < ATTEMPTS ::
      status(n).None? && forall m: nat | m < n :: status(m).Some? && Transient(status(m).value)
  }

  /** Both archives can be read back and are the signed ones. */
  predicate ReadsBack(r: Release, d: Desc, net: Net) {
    r.Matches(d) && Answers(n => net.status(false, n)) && Answers(n => net.status(true, n))
  }

  /** Where making the versioned release breaks off, from the site and from the calls that work. */
  function ReleaseBreak(s: Site, local: Envelope, net: Net): Break {
    var id := local.desc.id;
    if id !in s.releases then
      if net.uploaded.Some? then Creating(net.uploaded.value)
      else if !net.edit then Created
      else if ReadsBack(Draft(local, ALL), local.desc, net) then Never else ReadBack
    else
      var r := s.releases[id];
      if !net.readRelease then Early
      else if r.manifest.None? || r.manifest.value.desc != local.desc || (r.draft && !(r.Complete() && r.Matches(local.desc))) then Never
      else if r.draft && !net.edit then Created
      else if ReadsBack(r, local.desc, net) then Never else ReadBack
  }

  /** The run has nothing to do at the feed. */
  predicate FeedStays(s: Site, local: Envelope, releaseOnly: bool) {
    releaseOnly || (s.Feed().Some? && s.Feed().value.desc == local.desc)
  }

  function FeedBreak(net: Net): Break {
    if !net.makeStable || !net.delete then FeedMade else if !net.upload then FeedDeleted else Never
  }

  /** Where a run breaks off. */
  function BreakOf(s: Site, local: Envelope, releaseOnly: bool, net: Net): Break {
    if !net.findRelease || !net.findStable || (s.stable.Some? && !net.readFeed) then Early
    else
      var b := ReleaseBreak(s, local, net);
      if b.Never? && !FeedStays(s, local, releaseOnly) then FeedBreak(net) else b
  }

  class Session {
    var releases: map<Id, Release>
    var stable: Option<Stable>

    constructor (site: Site)
      ensures View() == site
    {
      releases, stable := site.releases, site.stable;
    }

    ghost function View(): Site
      reads this
    {
      Site(releases, stable)
    }

    /** One architecture of readback_assets: up to three attempts, transient errors are tried again. */
    method ReadOneBack(published: Option<Blob>, signed: Blob, status: nat -> Option<nat>) returns (ok: bool)
      ensures ok <==> published == Some(signed) && Answers(status)
    {
      var attempt := 0;
      while attempt < ATTEMPTS
        invariant 0 <= attempt <= ATTEMPTS
        invariant forall m: nat | m < attempt :: status(m).Some? && Transient(status(m).value)
      {
        var code := status(attempt);
        if code.None? {
          return published == Some(signed);
        }
        if attempt == ATTEMPTS - 1 || !Transient(code.value) {
          return false;
        }
        attempt := attempt + 1;
      }
      ok := false;
    }

    /** readback_assets */
    method ReadBackAssets(id: Id, d: Desc, net: Net) returns (ok: bool)
      requires id in releases
      ensures ok <==> ReadsBack(releases[id], d, net)
    {
      hide Answers;
      ok := ReadOneBack(releases[id].arm, d.arm, n => net.status(false, n));
      if ok {
        ok := ReadOneBack(releases[id].arm64, d.arm64, n => net.status(true, n));
      }
    }

    /** existing_manifest */
    method ExistingManifest(local: Envelope, net: Net) returns (e: Option<Envelope>)
      requires local.desc.id in releases
      modifies this`releases
      ensures var b := ReleaseBreak(old(View()), local, net);
              if b.Early? then e.None? && View() == old(View())
              else (View(), e) == Existing(old(View()), Job(local, false, b))
    {
      hide ReadsBack;
      var id := local.desc.id;
      var r := releases[id];
      if !net.readRelease { return None; }
      if !r.draft {
        if r.manifest.None? || r.manifest.value.desc != local.desc { return None; }
        MatchesToo(r, local.desc, net);
        var back := ReadBackAssets(id, local.desc, net);
        return if back then r.manifest else None;
      }
      if !r.Complete() { return None; }
      if r.manifest.value.desc != local.desc || !r.Matches(local.desc) { return None; }
      if !net.edit { return None; }
      releases := releases[id := r.(draft := false)];
      SameArchives(r, r.(draft := false), local.desc, net);
      var back := ReadBackAssets(id, local.desc, net);
      return if back then r.manifest else None;
    }

    static lemma MatchesToo(r: Release, d: Desc, net: Net)
      ensures ReadsBack(r, d, net) ==> r.Matches(d)
    {
    }

    static lemma SameArchives(a: Release, b: Release, d: Desc, net: Net)
      requires a.arm == b.arm && a.arm64 == b.arm64
      ensures ReadsBack(a, d, net) <==> ReadsBack(b, d, net)
    {
    }

    /** The branch that makes the versioned release: draft, assets, publication, and reading the archives back. */
    method CreateRelease(local: Envelope, net: Net) returns (e: Option<Envelope>)
      requires local.desc.id !in releases
      modifies this`releases
      ensures (View(), e) == Versioned(old(View()), Job(local, false, ReleaseBreak(old(View()), local, net)))
    {
      hide ReadsBack;
      var id := local.desc.id;
      if net.uploaded.Some? {
        releases := releases[id := Draft(local, net.uploaded.value)];
        return None;
      }
      releases := releases[id := Draft(local, ALL)];
      if !net.edit { return None; }
      releases := releases[id := Draft(local, ALL).(draft := false)];
      assert releases == old(releases)[id := Draft(local, ALL).(draft := false)];
      SameArchives(Draft(local, ALL), Draft(local, ALL).(draft := false), local.desc, net);
      var back := ReadBackAssets(id, local.desc, net);
      return if back then Some(local) else None;
    }

    /** The stable release when it is missing, then the new manifest in place of the old. */
    method AdvanceFeed(e: Envelope, net: Net) returns (done: bool)
      modifies this`stable
      ensures View() == Advance(old(View()), e, FeedBreak(net)) && (done <==> FeedBreak(net).Never?)
    {
      if stable.None? { stable := Some(Stable(false, None)); }
      if !net.makeStable || !net.delete { return false; }
      stable := Some(Stable(false, None));
      if !net.upload { return false; }
      stable := Some(Stable(false, Some(e)));
      return true;
    }

    /** main(): the run is the job that breaks off where its calls do, and returns normally exactly when nothing
        breaks off, the candidate is allowed, and its versioned release holds its artifacts. */
    method PublishCore(local: Envelope, releaseOnly: bool, net: Net) returns (done: bool)
      modifies this
      ensures var b := BreakOf(old(View()), local, releaseOnly, net);
              && View() == Publish(old(View()), Job(local, releaseOnly, b))
              && (done <==> b.Never? && Allowed(old(View()), local.desc)
                            && Versioned(old(View()), Job(local, releaseOnly, Never)).1.Some?)
    {
      hide Existing, Advance, ReadsBack, ReleaseBreak;
      ghost var s := View();
      if !net.findRelease || !net.findStable { return false; }
      var current: Option<Envelope> := None;
      if stable.Some? {
        if stable.value.draft { return false; }
        if !net.readFeed { return false; }
        current := stable.value.feed;
        if current.Some? {
          if local.desc.id.Less(current.value.desc.id) { return false; }
          if local.desc.id == current.value.desc.id && current.value.desc != local.desc { return false; }
        }
      }
      assert Allowed(s, local.desc) && current == s.Feed();
      ReleaseBreakIs(s, local, releaseOnly, net);
      var e: Option<Envelope>;
      if local.desc.id in releases {
        e := ExistingManifest(local, net);
      } else {
        e := CreateRelease(local, net);
      }
      LateBreak(s, local, releaseOnly, FeedBreak(net));
      if e.None? { return false; }
      if releaseOnly || (current.Some? && current.value.desc == local.desc) { return true; }
      done := AdvanceFeed(e.value, net);
    }

    /** Making the versioned release does not depend on what follows it, and yields an envelope only unbroken. */
    static lemma ReleaseBreakIs(s: Site, local: Envelope, releaseOnly: bool, net: Net)
      ensures var b := ReleaseBreak(s, local, net);
              var v := Versioned(s, Job(local, releaseOnly, b));
              && v == Versioned(s, Job(local, false, b))
              && (local.desc.id in s.releases ==> Versioned(s, Job(local, false, b)) == Existing(s, Job(local, false, b)))
              && (b.Early? ==> local.desc.id in s.releases)
              && (!b.Early? && v.1.Some? ==> b.Never?)
              && !b.FeedMade? && !b.FeedDeleted?
    {
    }

    static lemma LateBreak(s: Site, local: Envelope, releaseOnly: bool, b: Break)
      requires b.FeedMade? || b.FeedDeleted? || b.Never?
      ensures Versioned(s, Job(local, releaseOnly, b)) == Versioned(s, Job(local, releaseOnly, Never))
    {
    }
  }

  lemma AnswersAtOnce(status: nat -> Option<nat>)
    requires status(0).None?
    ensures Answers(status)
  {
    var n: nat := 0;
    assert n < ATTEMPTS && status(n).None?;
  }

  /** When every call works, an allowed candidate whose tag holds no other artifacts and no unfinished draft is
      published and reaches the feed. */
  lemma WorkingRunFinishes(s: Site, local: Envelope, net: Net)
    requires Inv(s) && MayFollow(s, local.desc)
    requires net.findRelease && net.findStable && net.readFeed && net.readRelease && net.uploaded.None? && net.edit
    requires net.makeStable && net.delete && net.upload && forall arm, n :: net.status(arm, n).None?
    requires var id := local.desc.id;
             id in s.releases ==>
               && s.releases[id].Complete() && s.releases[id].manifest.value.desc == local.desc
               && s.releases[id].Matches(local.desc)
    ensures BreakOf(s, local, false, net).Never? && Versioned(s, Job(local, false, Never)).1.Some?
    ensures Publish(s, Job(local, false, Never)).Feed().Some?
            && Publish(s, Job(local, false, Never)).Feed().value.desc == local.desc
  {
    AnswersAtOnce(n => net.status(false, n));
    AnswersAtOnce(n => net.status(true, n));
    FinishedRunAdvances(s, Job(local, false, Never));
  }
}
