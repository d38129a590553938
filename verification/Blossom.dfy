/** The choice of a deployable build among the events that announce them: the newest one that passes
    every filter, over the persistent announcements (kind 1063) followed by the builds in flight
    (kind 30078). */
module Blossom {
  import opened Options
  import opened Text

  type Tags = map<string, seq<string>>

  /** The values that the tags with the given name carry, in order. */
  function ValuesOf(tags: seq<seq<string>>, key: string): seq<string> {
    if tags == [] then []
    else
      var t := tags[|tags| - 1];
      ValuesOf(tags[..|tags| - 1], key) + if t != [] && t[0] == key then t[1..] else []
  }

  ghost predicate Named(tags: seq<seq<string>>, key: string) {
    exists i :: 0 <= i < |tags| && tags[i] != [] && tags[i][0] == key
  }

  /** `out` collects the tags by name. */
  ghost predicate Collects(tags: seq<seq<string>>, out: Tags) {
    forall key :: (key in out <==> Named(tags, key)) && (key in out ==> out[key] == ValuesOf(tags, key))
  }

  lemma NamedSnoc(tags: seq<seq<string>>, n: nat, key: string)
    requires n < |tags|
    ensures Named(tags[..n + 1], key) <==> Named(tags[..n], key) || (tags[n] != [] && tags[n][0] == key)
    ensures ValuesOf(tags[..n + 1], key) == ValuesOf(tags[..n], key) + if tags[n] != [] && tags[n][0] == key then tags[n][1..] else []
  {
    var longer := tags[..n + 1];
    assert longer[..n] == tags[..n];
    if Named(tags[..n], key) {
      var i :| 0 <= i < n && tags[i] != [] && tags[i][0] == key;
      assert longer[i] == tags[i];
    }
    if tags[n] != [] && tags[n][0] == key {
      assert longer[n] == tags[n];
    }
  }

  lemma UnnamedHasNoValues(tags: seq<seq<string>>, key: string)
    requires !Named(tags, key)
    ensures ValuesOf(tags, key) == []
  {
    if tags != [] {
      var n := |tags| - 1;
      assert tags[..n + 1] == tags;
      NamedSnoc(tags, n, key);
      UnnamedHasNoValues(tags[..n], key);
    }
  }

  /** `_tags_as_dict`. */
  method TagsAsDict(tags: seq<seq<string>>) returns (out: Tags)
    ensures Collects(tags, out)
  {
    out := map[];
    for n := 0 to |tags|
      invariant Collects(tags[..n], out)
    {
      var t := tags[n];
      ghost var before := out;
      if t != [] {
        out := out[t[0] := (if t[0] in out then out[t[0]] else []) + t[1..]];
      }
      forall key
        ensures (key in out <==> Named(tags[..n + 1], key)) && (key in out ==> out[key] == ValuesOf(tags[..n + 1], key))
      {
        NamedSnoc(tags, n, key);
        if !Named(tags[..n], key) {
          UnnamedHasNoValues(tags[..n], key);
        }
        assert (key in before <==> Named(tags[..n], key)) && (key in before ==> before[key] == ValuesOf(tags[..n], key));
      }
    }
    assert tags[..|tags|] == tags;
  }

  // ----- the filters

  datatype Query = Query(arch: string, fmt: string, branch: string, commit: Option<string>)

  datatype Artifact = Artifact(url: string, filename: string, sha256: string, architecture: string, format: string)

  predicate Has(tags: Tags, key: string) {
    key in tags && tags[key] != []
  }

  function First(tags: Tags, key: string, default: string): string {
    if Has(tags, key) then tags[key][0] else default
  }

  /** The first of `A` and `architecture` that has values decides; without either only the empty
      architecture matches. */
  predicate ArchMatches(tags: Tags, arch: string) {
    if Has(tags, "A") then tags["A"][0] == arch
    else if Has(tags, "architecture") then tags["architecture"][0] == arch
    else "architecture" !in tags && arch == ""
  }

  function Sanitized(branch: string): string {
    seq(|branch|, i requires 0 <= i < |branch| => if branch[i] == '/' then '-' else branch[i])
  }

  predicate BranchMatches(tags: Tags, branch: string) {
    branch != "" ==> Contains(First(tags, "filename", ""), "_" + Sanitized(branch) + ".")
  }

  /** A commit is pinned when one is given and not empty. */
  predicate Pinned(q: Query) {
    q.commit.Some? && q.commit.value != ""
  }

  function Short(commit: string): string {
    if |commit| >= 7 then commit[..7] else commit
  }

  predicate CommitMatches(tags: Tags, commit: string) {
    || StartsWith(First(tags, "r", ""), Short(commit))
    || (First(tags, "v", "") != "" && EndsWith(First(tags, "v", ""), "." + Short(commit)))
  }

  predicate Passes(tags: Tags, q: Query) {
    && ArchMatches(tags, q.arch)
    && First(tags, "compression", "none") == "none"
    && (q.fmt != "" ==> First(tags, "format", "ipk") == q.fmt)
    && BranchMatches(tags, q.branch)
    && (Pinned(q) ==> CommitMatches(tags, q.commit.value))
  }

  function ArtifactOf(tags: Tags, arch: string): Artifact {
    Artifact(
      if Has(tags, "url") then tags["url"][0] else First(tags, "urls", ""),
      First(tags, "filename", ""),
      if Has(tags, "x") then tags["x"][0] else if Has(tags, "ox") then tags["ox"][0] else First(tags, "sha256", ""),
      arch,
      First(tags, "format", "ipk"))
  }

  /** `_event_matches`: the artifact and its time, when the event passes every filter. */
  function EventMatches(tags: Tags, created: int, q: Query): (r: Option<(Artifact, int)>)
    ensures r.Some? <==> Passes(tags, q)
    ensures r.Some? ==> r.value == (ArtifactOf(tags, q.arch), created)
  {
    if !ArchMatches(tags, q.arch) then None
    else if First(tags, "compression", "none") != "none" then None
    else if q.fmt != "" && First(tags, "format", "ipk") != q.fmt then None
    else if !BranchMatches(tags, q.branch) then None
    else
      var artifact := ArtifactOf(tags, q.arch);
      if !Pinned(q) then Some((artifact, created))
      else if CommitMatches(tags, q.commit.value) then Some((artifact, created))
      else None
  }

  // ----- the choice

  /** An event as the filters see it. */
  datatype Candidate = Candidate(tags: Tags, created: int)

  /** The candidate passes, has a positive time, and no earlier one is as new and no later one newer. */
  ghost predicate IsChoice(cands: seq<Candidate>, q: Query, i: nat) {
    && i < |cands| && Passes(cands[i].tags, q) && cands[i].created > 0
    && forall j | 0 <= j < |cands| && Passes(cands[j].tags, q) ::
         cands[j].created <= cands[i].created && (j < i ==> cands[j].created < cands[i].created)
  }

  ghost predicate NoChoice(cands: seq<Candidate>, q: Query) {
    forall j | 0 <= j < |cands| && Passes(cands[j].tags, q) :: cands[j].created <= 0
  }

  /** The artifact is that of the choice. */
  ghost predicate IsChosen(cands: seq<Candidate>, q: Query, artifact: Artifact) {
    exists i: nat :: IsChoice(cands, q, i) && artifact == ArtifactOf(cands[i].tags, q.arch)
  }

  lemma BestIsChosen(cands: seq<Candidate>, q: Query, artifact: Artifact, ts: int)
    requires Best(cands, q, Some(artifact), ts)
    ensures IsChosen(cands, q, artifact)
  {
  }

  /** What the best-so-far variables say about the candidates seen. */
  ghost predicate Best(cands: seq<Candidate>, q: Query, best: Option<Artifact>, ts: int) {
    match best
    case None => ts == 0 && NoChoice(cands, q)
    case Some(artifact) =>
      exists i: nat :: IsChoice(cands, q, i) && artifact == ArtifactOf(cands[i].tags, q.arch) && ts == cands[i].created
  }

  /** One more candidate: it replaces the best exactly when it passes and is strictly newer. */
  lemma BestStep(cands: seq<Candidate>, q: Query, best: Option<Artifact>, ts: int, c: Candidate)
    requires Best(cands, q, best, ts)
    ensures var longer := cands + [c];
            if Passes(c.tags, q) && c.created > ts then Best(longer, q, Some(ArtifactOf(c.tags, q.arch)), c.created)
            else Best(longer, q, best, ts)
  {
    var longer := cands + [c];
    assert forall j | 0 <= j < |cands| :: longer[j] == cands[j];
    if best.Some? {
      var i: nat :| IsChoice(cands, q, i) && best.value == ArtifactOf(cands[i].tags, q.arch) && ts == cands[i].created;
      if !(Passes(c.tags, q) && c.created > ts) {
        assert IsChoice(longer, q, i);
      }
    }
    if Passes(c.tags, q) && c.created > ts {
      assert IsChoice(longer, q, |cands|);
    }
  }

  /** The best so far with a pinned commit, and without one. */
  datatype Bests = Bests(commit: Option<Artifact>, commitTs: int, any: Option<Artifact>, anyTs: int)

  /** One event against the best so far. */
  function Consider(b: Bests, tags: Tags, created: int, q: Query): Bests {
    match EventMatches(tags, created, q)
    case None => b
    case Some((artifact, ts)) =>
      if Pinned(q) then (if ts > b.commitTs then b.(commitTs := ts, commit := Some(artifact)) else b)
      else if ts > b.anyTs then b.(anyTs := ts, any := Some(artifact)) else b
  }

  ghost predicate Holds(cands: seq<Candidate>, q: Query, b: Bests) {
    if Pinned(q) then Best(cands, q, b.commit, b.commitTs) && b.any == None
    else Best(cands, q, b.any, b.anyTs) && b.commit == None
  }

  lemma ConsiderStep(cands: seq<Candidate>, q: Query, b: Bests, tags: Tags, created: int)
    requires Holds(cands, q, b)
    ensures Holds(cands + [Candidate(tags, created)], q, Consider(b, tags, created, q))
  {
    if Pinned(q) {
      BestStep(cands, q, b.commit, b.commitTs, Candidate(tags, created));
    } else {
      BestStep(cands, q, b.any, b.anyTs, Candidate(tags, created));
    }
  }

  lemma ChoiceIsUnique(cands: seq<Candidate>, q: Query, i: nat, k: nat)
    requires IsChoice(cands, q, i) && IsChoice(cands, q, k)
    ensures i == k
  {
  }

  /** A value of the JSON content of a build event. */
  datatype Value = Str(text: string) | Many(values: seq<string>)

  datatype FileEvent = FileEvent(tags: seq<seq<string>>, created: int)

  /** `content` is missing when it is not JSON. */
  datatype BuildEvent = BuildEvent(content: Option<seq<(string, Value)>>, tags: seq<seq<string>>, created: int)

  /** The content as tags: empty texts are dropped. */
  function Flat(content: seq<(string, Value)>): Tags {
    if content == [] then map[]
    else
      var (key, value) := content[|content| - 1];
      var rest := Flat(content[..|content| - 1]);
      match value
      case Many(values) => rest[key := values]
      case Str(text) => if text != "" then rest[key := [text]] else rest
  }

  /** The second elements of the `r` tags; taking it from a tag without one raises. */
  function BuildIds(tags: seq<seq<string>>): Option<seq<string>> {
    if tags == [] then Some([])
    else
      var t := tags[|tags| - 1];
      match BuildIds(tags[..|tags| - 1])
      case None => None
      case Some(ids) => if t != [] && t[0] == "r" then (if |t| < 2 then None else Some(ids + [t[1]])) else Some(ids)
  }

  function WithBuildIds(flat: Tags, ids: seq<string>): Tags {
    if ids != [] then flat["r" := ids] else flat
  }

  predicate RaisesOn(e: BuildEvent) {
    e.content.Some? && BuildIds(e.tags).None?
  }

  /** The build events that parse, as candidates. */
  function InFlight(events: seq<BuildEvent>): seq<Candidate> {
    if events == [] then []
    else
      var e := events[|events| - 1];
      InFlight(events[..|events| - 1]) +
      if e.content.None? || RaisesOn(e) then [] else [Candidate(WithBuildIds(Flat(e.content.value), BuildIds(e.tags).value), e.created)]
  }

  /** The candidates of the file events. */
  ghost predicate Published(events: seq<FileEvent>, cands: seq<Candidate>) {
    |cands| == |events| && forall i | 0 <= i < |events| :: cands[i].created == events[i].created && Collects(events[i].tags, cands[i].tags)
  }

  lemma PublishedSnoc(files: seq<FileEvent>, n: nat, cands: seq<Candidate>, tags: Tags)
    requires n < |files| && Published(files[..n], cands) && Collects(files[n].tags, tags)
    ensures Published(files[..n + 1], cands + [Candidate(tags, files[n].created)])
  {
    assert forall i | 0 <= i < n :: files[..n + 1][i] == files[..n][i];
  }

  datatype Resolution = Chosen(artifact: Artifact) | Nothing | IndexError

  /** The loop over the file events. */
  method ConsiderFiles(files: seq<FileEvent>, q: Query) returns (b: Bests, ghost published: seq<Candidate>)
    ensures Published(files, published) && Holds(published, q, b)
  {
    b := Bests(None, 0, None, 0);
    published := [];
    for n := 0 to |files|
      invariant Published(files[..n], published) && Holds(published, q, b)
    {
      var tags := TagsAsDict(files[n].tags);
      ConsiderStep(published, q, b, tags, files[n].created);
      PublishedSnoc(files, n, published, tags);
      published := published + [Candidate(tags, files[n].created)];
      b := Consider(b, tags, files[n].created, q);
    }
    assert files[..|files|] == files;
  }

  lemma InFlightSnoc(builds: seq<BuildEvent>, n: nat)
    requires n < |builds|
    ensures InFlight(builds[..n + 1]) ==
              InFlight(builds[..n]) +
              if builds[n].content.None? || RaisesOn(builds[n]) then []
              else [Candidate(WithBuildIds(Flat(builds[n].content.value), BuildIds(builds[n].tags).value), builds[n].created)]
  {
    assert builds[..n + 1][..n] == builds[..n];
  }

  /** One build event against the best so far. */
  lemma BuildStep(published: seq<Candidate>, builds: seq<BuildEvent>, n: nat, q: Query, best: Bests)
    requires n < |builds| && Holds(published + InFlight(builds[..n]), q, best)
    ensures var seen := published + InFlight(builds[..n + 1]); var e := builds[n];
            && (e.content.None? ==> Holds(seen, q, best))
            && (e.content.Some? && BuildIds(e.tags).Some? ==>
                  Holds(seen, q, Consider(best, WithBuildIds(Flat(e.content.value), BuildIds(e.tags).value), e.created, q)))
  {
    var before := published + InFlight(builds[..n]);
    var e := builds[n];
    InFlightSnoc(builds, n);
    if e.content.None? || RaisesOn(e) {
      assert published + InFlight(builds[..n + 1]) == before;
    } else {
      var c := Candidate(WithBuildIds(Flat(e.content.value), BuildIds(e.tags).value), e.created);
      assert published + InFlight(builds[..n + 1]) == before + [c];
      ConsiderStep(before, q, best, c.tags, c.created);
    }
  }

  /** The loop over the build events; none when it raises. */
  method ConsiderBuilds(builds: seq<BuildEvent>, q: Query, before: Bests, ghost published: seq<Candidate>) returns (b: Option<Bests>)
    requires Holds(published, q, before)
    ensures b == None <==> exists i | 0 <= i < |builds| :: RaisesOn(builds[i])
    ensures b.Some? ==> Holds(published + InFlight(builds), q, b.value)
  {
    var best := before;
    assert published + InFlight(builds[..0]) == published;
    for n := 0 to |builds|
      invariant Holds(published + InFlight(builds[..n]), q, best)
      invariant forall i | 0 <= i < n :: !RaisesOn(builds[i])
    {
      BuildStep(published, builds, n, q, best);
      if builds[n].content == None {
        continue;
      }
      var ids := BuildIds(builds[n].tags);
      if ids == None {
        return None;
      }
      var flat := WithBuildIds(Flat(builds[n].content.value), ids.value);
      best := Consider(best, flat, builds[n].created, q);
    }
    assert builds[..|builds|] == builds;
    b := Some(best);
  }

  /** `_resolve_blossom_binary`, on the two lists of events it received. */
  method Resolve(files: seq<FileEvent>, builds: seq<BuildEvent>, q: Query) returns (result: Resolution, ghost published: seq<Candidate>)
    ensures Published(files, published)
    ensures result == IndexError <==> exists i | 0 <= i < |builds| :: RaisesOn(builds[i])
    ensures var all := published + InFlight(builds);
            && (result.Chosen? ==> IsChosen(all, q, result.artifact))
            && (result.Nothing? ==> NoChoice(all, q))
  {
    var first;
    first, published := ConsiderFiles(files, q);
    var b := ConsiderBuilds(builds, q, first, published);
    if b == None {
      return IndexError, published;
    }
    ghost var all := published + InFlight(builds);
    if b.value.commit.Some? {
      BestIsChosen(all, q, b.value.commit.value, b.value.commitTs);
      return Chosen(b.value.commit.value), published;
    }
    if b.value.any.Some? {
      BestIsChosen(all, q, b.value.any.value, b.value.anyTs);
      return Chosen(b.value.any.value), published;
    }
    return Nothing, published;
  }

  lemma {:induction false} InFlightFrom(builds: seq<BuildEvent>, k: nat) returns (i: nat)
    requires k < |InFlight(builds)|
    ensures i < |builds| && builds[i].content.Some? && !RaisesOn(builds[i])
    ensures InFlight(builds)[k] ==
              Candidate(WithBuildIds(Flat(builds[i].content.value), BuildIds(builds[i].tags).value), builds[i].created)
  {
    var n := |builds| - 1;
    if k < |InFlight(builds[..n])| {
      i := InFlightFrom(builds[..n], k);
    } else {
      i := n;
    }
  }

  /** The file events do not take precedence: a newer build in flight is chosen before them, and an
      older or equally old one never is. */
  lemma NewerWinsAcrossKinds(published: seq<Candidate>, inFlight: seq<Candidate>, q: Query, i: nat)
    requires IsChoice(published + inFlight, q, i)
    ensures i >= |published| ==>
              forall j | 0 <= j < |published| && Passes(published[j].tags, q) :: published[j].created < (published + inFlight)[i].created
    ensures i < |published| ==> IsChoice(published, q, i)
  {
    var all := published + inFlight;
    assert forall j | 0 <= j < |published| :: all[j] == published[j];
  }
}
