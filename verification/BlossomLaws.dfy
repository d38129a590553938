/** What the choice of a build means in the texts of the events: which tag values and content entries a
    chosen artifact comes from, and which events cannot be passed over. */
module BlossomLaws {
  import opened Options
  import opened Text
  import opened Blossom

  // ----- what an event says

  /** The values under a key. */
  type Values = string -> seq<string>

  /** The values of the tags, joined: each tag named by the key adds all that follows its name. */
  lemma {:induction false} ValuesOfTags(front: seq<seq<string>>, back: seq<seq<string>>, key: string, values: seq<string>, other: string)
    requires other != key
    ensures ValuesOf([[key] + values], key) == values
    ensures ValuesOf([[other] + values], key) == ValuesOf([[]], key) == ValuesOf([], key) == []
    ensures ValuesOf(front + back, key) == ValuesOf(front, key) + ValuesOf(back, key)
  {
    var empty: seq<string> := [];
    assert [[key] + values][..0] == [] && [[other] + values][..0] == [] && [empty][..0] == [];
    assert ([key] + values)[1..] == values && ([other] + values)[0] == other;
    if back == [] {
      assert front + back == front;
    } else {
      var n := |back| - 1;
      assert (front + back)[..|front + back| - 1] == front + back[..n];
      ValuesOfTags(front, back[..n], key, values, other);
    }
  }

  /** The content of a build event is a JSON object: its keys are distinct. */
  ghost predicate IsObject(content: seq<(string, Value)>) {
    forall i, j | 0 <= i < j < |content| :: content[i].0 != content[j].0
  }

  /** The entries of the content: a list stands as it is, a text as a single value, and an empty text is
      no entry at all. */
  lemma {:induction false} FlatMeans(content: seq<(string, Value)>)
    requires IsObject(content)
    ensures forall i | 0 <= i < |content| ::
              match content[i].1
              case Many(values) => content[i].0 in Flat(content) && Flat(content)[content[i].0] == values
              case Str("") => content[i].0 !in Flat(content)
              case Str(text) => content[i].0 in Flat(content) && Flat(content)[content[i].0] == [text]
    ensures forall key | key in Flat(content) :: exists i :: 0 <= i < |content| && content[i].0 == key
  {
    if content != [] {
      var n := |content| - 1;
      var rest := content[..n];
      FlatMeans(rest);
      assert forall i | 0 <= i < n :: rest[i] == content[i];
    }
  }

  /** The build identifiers: taking them raises exactly when some `r` tag has no value, and the first is
      that of the first `r` tag. */
  lemma {:induction false} BuildIdsMean(tags: seq<seq<string>>)
    ensures BuildIds(tags).None? <==> exists i :: 0 <= i < |tags| && tags[i] == ["r"]
    ensures BuildIds(tags) == Some([]) <==> forall i | 0 <= i < |tags| :: tags[i] == [] || tags[i][0] != "r"
    ensures BuildIds(tags).Some? && BuildIds(tags).value != [] ==>
              exists i :: 0 <= i < |tags| && |tags[i]| >= 2 && tags[i][..2] == ["r", BuildIds(tags).value[0]]
                          && forall j | 0 <= j < i :: tags[j] == [] || tags[j][0] != "r"
  {
    if tags != [] {
      var n := |tags| - 1;
      var front := tags[..n];
      BuildIdsMean(front);
      assert forall i | 0 <= i < n :: front[i] == tags[i];
      if tags[n] != [] && tags[n][0] == "r" && |tags[n]| < 2 {
        assert tags[n] == ["r"];
      }
    }
  }

  /** What a file event says: the values of its tags, and whether no tag names an architecture at all. */
  ghost predicate FileSays(e: FileEvent, v: Values, bare: bool) {
    && (forall key :: v(key) == ValuesOf(e.tags, key))
    && (bare <==> forall i | 0 <= i < |e.tags| :: e.tags[i] == [] || e.tags[i][0] != "architecture")
  }

  /** What a build event says: the entries of its content, and under `r` the identifiers of its own tags
      where it has some. */
  ghost predicate BuildSays(e: BuildEvent, v: Values, bare: bool) {
    && e.content.Some? && (forall i | 0 <= i < |e.tags| :: e.tags[i] != ["r"])
    && (forall key :: if key == "r" && TaggedR(e.tags) then v(key) != [] && FirstR(e.tags, v(key)[0]) else Entry(e.content.value, key, v(key)))
    && (bare <==> forall i | 0 <= i < |e.content.value| :: e.content.value[i].0 == "architecture" ==> e.content.value[i].1 == Str(""))
  }

  ghost predicate TaggedR(tags: seq<seq<string>>) {
    exists i :: 0 <= i < |tags| && tags[i] != [] && tags[i][0] == "r"
  }

  ghost predicate FirstR(tags: seq<seq<string>>, id: string) {
    exists i :: 0 <= i < |tags| && |tags[i]| >= 2 && tags[i][..2] == ["r", id] && forall j | 0 <= j < i :: tags[j] == [] || tags[j][0] != "r"
  }

  ghost predicate Entry(content: seq<(string, Value)>, key: string, values: seq<string>) {
    || (key, Many(values)) in content
    || (|values| == 1 && values[0] != "" && (key, Str(values[0])) in content)
    || (values == [] && forall i | 0 <= i < |content| :: content[i].0 == key ==> content[i].1 == Str(""))
  }

  // ----- what the filters demand

  /** The filename has "_", the branch with every "/" as "-", and ".", one behind the other. */
  ghost predicate OfBranch(filename: string, branch: string) {
    exists n: nat :: n + |branch| + 2 <= |filename| && BranchAt(filename, branch, n)
  }

  ghost predicate BranchAt(filename: string, branch: string, n: nat)
    requires n + |branch| + 2 <= |filename|
  {
    && filename[n] == '_' && filename[n + |branch| + 1] == '.'
    && forall i | 0 <= i < |branch| :: filename[n + 1 + i] == if branch[i] == '/' then '-' else branch[i]
  }

  /** The first seven characters of the commit, or all of a shorter one, begin the first build identifier
      or end the first version, behind a dot. */
  ghost predicate OfCommit(ids: seq<string>, versions: seq<string>, commit: string) {
    var n := if |commit| < 7 then |commit| else 7;
    || (ids != [] && |ids[0]| >= n && ids[0][..n] == commit[..n])
    || (versions != [] && |versions[0]| > n && versions[0][|versions[0]| - n - 1..] == "." + commit[..n])
  }

  ghost predicate OfArch(v: Values, bare: bool, arch: string) {
    if v("A") != [] then v("A")[0] == arch
    else if v("architecture") != [] then v("architecture")[0] == arch
    else bare && arch == ""
  }

  ghost predicate Meets(v: Values, bare: bool, q: Query) {
    && OfArch(v, bare, q.arch)
    && (v("compression") == [] || v("compression")[0] == "none")
    && (q.fmt != "" ==> if v("format") == [] then q.fmt == "ipk" else v("format")[0] == q.fmt)
    && (q.branch != "" ==> v("filename") != [] && OfBranch(v("filename")[0], q.branch))
    && (q.commit.Some? && q.commit.value != "" ==> OfCommit(v("r"), v("v"), q.commit.value))
  }

  /** The artifact's fields: the first `url` before the first `urls`, `x` before `ox` before `sha256`. */
  ghost predicate Describes(v: Values, arch: string, artifact: Artifact) {
    && artifact.url == (if v("url") != [] then v("url")[0] else if v("urls") != [] then v("urls")[0] else "")
    && artifact.filename == (if v("filename") != [] then v("filename")[0] else "")
    && artifact.sha256 == (if v("x") != [] then v("x")[0] else if v("ox") != [] then v("ox")[0] else if v("sha256") != [] then v("sha256")[0] else "")
    && artifact.architecture == arch
    && artifact.format == (if v("format") != [] then v("format")[0] else "ipk")
  }

  /** The filters' view of an event fits what the event says. */
  ghost predicate Fits(tags: Tags, v: Values, bare: bool) {
    && (forall key :: key in tags && tags[key] != [] ==> v(key) != [] && v(key)[0] == tags[key][0])
    && (forall key :: key !in tags || tags[key] == [] ==> v(key) == [])
    && (bare <==> "architecture" !in tags)
  }

  lemma BranchExactly(filename: string, branch: string)
    ensures Contains(filename, "_" + Sanitized(branch) + ".") <==> OfBranch(filename, branch)
  {
    if Contains(filename, "_" + Sanitized(branch) + ".") {
      BranchFound(filename, branch);
    }
    if OfBranch(filename, branch) {
      BranchIsFound(filename, branch);
    }
  }

  lemma BranchFound(filename: string, branch: string)
    requires Contains(filename, "_" + Sanitized(branch) + ".")
    ensures OfBranch(filename, branch)
  {
    var name := Sanitized(branch);
    var pat := "_" + name + ".";
    var n :| 0 <= n <= |filename| - |pat| && OccursAt(filename, pat, n);
    var part := filename[n..n + |pat|];
    assert part[0] == '_' && part[|branch| + 1] == '.';
    forall i | 0 <= i < |branch|
      ensures filename[n + 1 + i] == name[i]
    {
      assert part[1 + i] == pat[1 + i] == name[i];
    }
    assert BranchAt(filename, branch, n);
  }

  lemma BranchIsFound(filename: string, branch: string)
    requires OfBranch(filename, branch)
    ensures Contains(filename, "_" + Sanitized(branch) + ".")
  {
    var pat := "_" + Sanitized(branch) + ".";
    var n: nat :| n + |branch| + 2 <= |filename| && BranchAt(filename, branch, n);
    var part := filename[n..n + |pat|];
    assert forall i | 0 <= i < |branch| :: filename[n + 1 + i] == Sanitized(branch)[i];
    assert part == pat;
    assert OccursAt(filename, pat, n);
  }

  lemma CommitExactly(ids: seq<string>, versions: seq<string>, commit: string)
    requires commit != ""
    ensures var (id, version) := (if ids == [] then "" else ids[0], if versions == [] then "" else versions[0]);
            StartsWith(id, Short(commit)) || (version != "" && EndsWith(version, "." + Short(commit))) <==> OfCommit(ids, versions, commit)
  {
    var n := if |commit| < 7 then |commit| else 7;
    assert Short(commit) == commit[..n] && |"." + commit[..n]| == n + 1;
  }

  lemma PassesExactly(tags: Tags, v: Values, bare: bool, q: Query)
    requires Fits(tags, v, bare)
    ensures Passes(tags, q) <==> Meets(v, bare, q)
  {
    FirstFits(tags, v, bare, "filename", "");
    FirstFits(tags, v, bare, "r", "");
    FirstFits(tags, v, bare, "v", "");
    FirstFits(tags, v, bare, "compression", "none");
    FirstFits(tags, v, bare, "format", "ipk");
    BranchExactly(First(tags, "filename", ""), q.branch);
    if q.commit.Some? && q.commit.value != "" {
      CommitExactly(v("r"), v("v"), q.commit.value);
    }
    ArchFits(tags, v, bare, q.arch);
  }

  lemma FirstFits(tags: Tags, v: Values, bare: bool, key: string, default: string)
    requires Fits(tags, v, bare)
    ensures First(tags, key, default) == if v(key) == [] then default else v(key)[0]
  {
  }

  lemma ArchFits(tags: Tags, v: Values, bare: bool, arch: string)
    requires Fits(tags, v, bare)
    ensures ArchMatches(tags, arch) <==> OfArch(v, bare, arch)
  {
  }

  lemma ArtifactDescribed(tags: Tags, v: Values, bare: bool, arch: string)
    requires Fits(tags, v, bare)
    ensures Describes(v, arch, ArtifactOf(tags, arch))
  {
  }

  lemma FileFits(e: FileEvent, tags: Tags, v: Values, bare: bool)
    requires Collects(e.tags, tags) && FileSays(e, v, bare)
    ensures Fits(tags, v, bare)
  {
    forall key | key !in tags
      ensures v(key) == []
    {
      UnnamedHasNoValues(e.tags, key);
    }
    assert "architecture" in tags <==> Named(e.tags, "architecture");
  }

  lemma EntryFits(content: seq<(string, Value)>, key: string, values: seq<string>)
    requires IsObject(content) && Entry(content, key, values)
    ensures if key in Flat(content) then Flat(content)[key] == values else values == []
  {
    FlatMeans(content);
    if key in Flat(content) {
      var i :| 0 <= i < |content| && content[i].0 == key;
      assert content[i] == (key, content[i].1);
    }
  }

  lemma FirstIsOne(tags: seq<seq<string>>, id: string, other: string)
    requires FirstR(tags, id) && FirstR(tags, other)
    ensures id == other
  {
    var i :| 0 <= i < |tags| && |tags[i]| >= 2 && tags[i][..2] == ["r", id] && forall j | 0 <= j < i :: tags[j] == [] || tags[j][0] != "r";
    var k :| 0 <= k < |tags| && |tags[k]| >= 2 && tags[k][..2] == ["r", other] && forall j | 0 <= j < k :: tags[j] == [] || tags[j][0] != "r";
    assert tags[i][0] == tags[i][..2][0] == "r" == tags[k][..2][0] == tags[k][0];
    assert i == k;
    assert id == tags[i][..2][1] == other;
  }

  /** The identifiers of the tags, in one reading. */
  lemma IdsFit(tags: seq<seq<string>>, values: seq<string>)
    requires forall i | 0 <= i < |tags| :: tags[i] != ["r"]
    requires TaggedR(tags) ==> values != [] && FirstR(tags, values[0])
    ensures BuildIds(tags).Some? && (BuildIds(tags).value == [] <==> !TaggedR(tags))
    ensures TaggedR(tags) ==> BuildIds(tags).value[0] == values[0]
  {
    BuildIdsMean(tags);
    if TaggedR(tags) {
      var ids := BuildIds(tags).value;
      assert FirstR(tags, ids[0]);
      FirstIsOne(tags, ids[0], values[0]);
    }
  }

  lemma ArchitectureListed(content: seq<(string, Value)>)
    requires IsObject(content)
    ensures "architecture" !in Flat(content) <==>
            forall i | 0 <= i < |content| :: content[i].0 == "architecture" ==> content[i].1 == Str("")
  {
    FlatMeans(content);
  }

  lemma BuildFits(e: BuildEvent, v: Values, bare: bool)
    requires e.content.Some? && IsObject(e.content.value) && BuildSays(e, v, bare)
    ensures !RaisesOn(e)
    ensures Fits(WithBuildIds(Flat(e.content.value), BuildIds(e.tags).value), v, bare)
  {
    IdsFit(e.tags, v("r"));
    var ids := BuildIds(e.tags).value;
    var flat := Flat(e.content.value);
    var tags := WithBuildIds(flat, ids);
    forall key
      ensures key in tags && tags[key] != [] ==> v(key) != [] && v(key)[0] == tags[key][0]
      ensures key !in tags || tags[key] == [] ==> v(key) == []
    {
      if !(key == "r" && TaggedR(e.tags)) {
        EntryFits(e.content.value, key, v(key));
        assert key in tags <==> key in flat;
      }
    }
    ArchitectureListed(e.content.value);
    assert "architecture"[0] != "r"[0];
  }

  /** What a file event says is there to be read. */
  lemma FileSpeaks(e: FileEvent) returns (v: Values, bare: bool)
    ensures FileSays(e, v, bare)
  {
    v := key => ValuesOf(e.tags, key);
    bare := forall i | 0 <= i < |e.tags| :: e.tags[i] == [] || e.tags[i][0] != "architecture";
  }

  /** What a build event says is there to be read. */
  lemma BuildSpeaks(e: BuildEvent) returns (v: Values, bare: bool)
    requires e.content.Some? && IsObject(e.content.value) && !RaisesOn(e)
    ensures BuildSays(e, v, bare)
  {
    var tags := WithBuildIds(Flat(e.content.value), BuildIds(e.tags).value);
    v := key => if key in tags then tags[key] else [];
    bare := "architecture" !in Flat(e.content.value);
    BuildIdsMean(e.tags);
    ArchitectureListed(e.content.value);
    forall key | !(key == "r" && TaggedR(e.tags))
      ensures Entry(e.content.value, key, v(key))
    {
      EntryRead(e.content.value, key);
    }
  }

  lemma EntryRead(content: seq<(string, Value)>, key: string)
    requires IsObject(content)
    ensures Entry(content, key, if key in Flat(content) then Flat(content)[key] else [])
  {
    FlatMeans(content);
    if key in Flat(content) {
      var i :| 0 <= i < |content| && content[i].0 == key;
      assert content[i] == (key, content[i].1);
    }
  }

  // ----- the choice

  ghost predicate FileServes(e: FileEvent, q: Query, artifact: Artifact) {
    exists v, bare :: FileSays(e, v, bare) && Meets(v, bare, q) && Describes(v, q.arch, artifact)
  }

  ghost predicate BuildServes(e: BuildEvent, q: Query, artifact: Artifact) {
    exists v, bare :: BuildSays(e, v, bare) && Meets(v, bare, q) && Describes(v, q.arch, artifact)
  }

  ghost predicate Served(files: seq<FileEvent>, builds: seq<BuildEvent>, q: Query, artifact: Artifact, time: int) {
    || (exists i :: 0 <= i < |files| && files[i].created == time && FileServes(files[i], q, artifact))
    || (exists i :: 0 <= i < |builds| && builds[i].created == time && BuildServes(builds[i], q, artifact))
  }

  ghost predicate NoneNewer(files: seq<FileEvent>, builds: seq<BuildEvent>, q: Query, time: int) {
    && (forall i, a | 0 <= i < |files| && FileServes(files[i], q, a) :: files[i].created <= time)
    && (forall i, a | 0 <= i < |builds| && BuildServes(builds[i], q, a) :: builds[i].created <= time)
  }

  ghost predicate Objects(builds: seq<BuildEvent>) {
    forall i | 0 <= i < |builds| && builds[i].content.Some? :: IsObject(builds[i].content.value)
  }

  lemma FileServesItsArtifact(e: FileEvent, tags: Tags, q: Query)
    requires Collects(e.tags, tags) && Passes(tags, q)
    ensures FileServes(e, q, ArtifactOf(tags, q.arch))
  {
    var v, bare := FileSpeaks(e);
    FileFits(e, tags, v, bare);
    PassesExactly(tags, v, bare, q);
    ArtifactDescribed(tags, v, bare, q.arch);
  }

  lemma BuildServesItsArtifact(e: BuildEvent, q: Query)
    requires e.content.Some? && IsObject(e.content.value) && !RaisesOn(e)
    requires Passes(WithBuildIds(Flat(e.content.value), BuildIds(e.tags).value), q)
    ensures BuildServes(e, q, ArtifactOf(WithBuildIds(Flat(e.content.value), BuildIds(e.tags).value), q.arch))
  {
    var tags := WithBuildIds(Flat(e.content.value), BuildIds(e.tags).value);
    var v, bare := BuildSpeaks(e);
    BuildFits(e, v, bare);
    PassesExactly(tags, v, bare, q);
    ArtifactDescribed(tags, v, bare, q.arch);
  }

  lemma ServingFilePasses(e: FileEvent, tags: Tags, q: Query, artifact: Artifact)
    requires Collects(e.tags, tags) && FileServes(e, q, artifact)
    ensures Passes(tags, q)
  {
    var v, bare :| FileSays(e, v, bare) && Meets(v, bare, q) && Describes(v, q.arch, artifact);
    FileFits(e, tags, v, bare);
    PassesExactly(tags, v, bare, q);
  }

  lemma ServingBuildPasses(e: BuildEvent, q: Query, artifact: Artifact)
    requires e.content.Some? ==> IsObject(e.content.value)
    requires BuildServes(e, q, artifact)
    ensures e.content.Some? && !RaisesOn(e) && Passes(WithBuildIds(Flat(e.content.value), BuildIds(e.tags).value), q)
  {
    var v, bare :| BuildSays(e, v, bare) && Meets(v, bare, q) && Describes(v, q.arch, artifact);
    BuildFits(e, v, bare);
    PassesExactly(WithBuildIds(Flat(e.content.value), BuildIds(e.tags).value), v, bare, q);
  }

  /** Every passing event is among the candidates. */
  lemma ServingIsCandidate(files: seq<FileEvent>, builds: seq<BuildEvent>, published: seq<Candidate>, q: Query, time: int)
    requires Published(files, published) && Objects(builds)
    requires var all := published + InFlight(builds);
             forall j | 0 <= j < |all| && Passes(all[j].tags, q) :: all[j].created <= time
    ensures NoneNewer(files, builds, q, time)
  {
    var all := published + InFlight(builds);
    forall i, a | 0 <= i < |files| && FileServes(files[i], q, a)
      ensures files[i].created <= time
    {
      ServingFilePasses(files[i], published[i].tags, q, a);
      assert all[i] == published[i];
    }
    forall i, a | 0 <= i < |builds| && BuildServes(builds[i], q, a)
      ensures builds[i].created <= time
    {
      ServingBuildPasses(builds[i], q, a);
      var k := InFlightAt(builds, i);
      assert all[|published| + k] == InFlight(builds)[k];
    }
  }

  lemma {:induction false} InFlightAt(builds: seq<BuildEvent>, i: nat) returns (k: nat)
    requires i < |builds| && builds[i].content.Some? && !RaisesOn(builds[i])
    ensures k < |InFlight(builds)|
    ensures InFlight(builds)[k] ==
              Candidate(WithBuildIds(Flat(builds[i].content.value), BuildIds(builds[i].tags).value), builds[i].created)
  {
    var n := |builds| - 1;
    if i < n {
      k := InFlightAt(builds[..n], i);
    } else {
      k := |InFlight(builds[..n])|;
    }
  }

  /** The chosen artifact is that of an event with a positive time which meets every demand, and no event
      that meets them is newer. */
  lemma ChosenIsNewestServed(files: seq<FileEvent>, builds: seq<BuildEvent>, published: seq<Candidate>, q: Query, artifact: Artifact) returns (time: int)
    requires Published(files, published) && Objects(builds)
    requires IsChosen(published + InFlight(builds), q, artifact)
    ensures time > 0 && Served(files, builds, q, artifact, time) && NoneNewer(files, builds, q, time)
  {
    var all := published + InFlight(builds);
    var i: nat :| IsChoice(all, q, i) && artifact == ArtifactOf(all[i].tags, q.arch);
    time := all[i].created;
    ServingIsCandidate(files, builds, published, q, time);
    if i < |files| {
      FileServesItsArtifact(files[i], all[i].tags, q);
    } else {
      var k := InFlightFrom(builds, i - |files|);
      BuildServesItsArtifact(builds[k], q);
    }
  }

  /** Nothing is chosen only when no event with a positive time meets the demands. */
  lemma NothingMeansNoneServes(files: seq<FileEvent>, builds: seq<BuildEvent>, published: seq<Candidate>, q: Query)
    requires Published(files, published) && Objects(builds) && NoChoice(published + InFlight(builds), q)
    ensures NoneNewer(files, builds, q, 0)
  {
    ServingIsCandidate(files, builds, published, q, 0);
  }

  lemma FileOfBranch(e: FileEvent, q: Query, artifact: Artifact)
    requires q.branch != "" && FileServes(e, q, artifact)
    ensures OfBranch(artifact.filename, q.branch)
    ensures ValuesOf(e.tags, "filename") != [] && ValuesOf(e.tags, "filename")[0] == artifact.filename
  {
  }

  lemma BuildOfBranch(e: BuildEvent, q: Query, artifact: Artifact)
    requires q.branch != "" && BuildServes(e, q, artifact)
    ensures OfBranch(artifact.filename, q.branch) && NamesFile(e, artifact.filename)
  {
    var v, bare :| BuildSays(e, v, bare) && Meets(v, bare, q) && Describes(v, q.arch, artifact);
    assert "filename"[0] != "r"[0];
    assert Entry(e.content.value, "filename", v("filename"));
  }

  /** With a branch given, the artifact comes from an event whose own first filename has the branch
      between "_" and "."; a build of another branch is never chosen. */
  lemma NoOtherBranch(files: seq<FileEvent>, builds: seq<BuildEvent>, published: seq<Candidate>, q: Query, artifact: Artifact)
    requires q.branch != "" && Published(files, published) && Objects(builds)
    requires IsChosen(published + InFlight(builds), q, artifact)
    ensures OfBranch(artifact.filename, q.branch)
    ensures || (exists e :: e in files && ValuesOf(e.tags, "filename") != [] && ValuesOf(e.tags, "filename")[0] == artifact.filename)
            || (exists e :: e in builds && NamesFile(e, artifact.filename))
  {
    var time := ChosenIsNewestServed(files, builds, published, q, artifact);
    if i :| 0 <= i < |files| && files[i].created == time && FileServes(files[i], q, artifact) {
      FileOfBranch(files[i], q, artifact);
    } else {
      var k :| 0 <= k < |builds| && builds[k].created == time && BuildServes(builds[k], q, artifact);
      BuildOfBranch(builds[k], q, artifact);
    }
  }

  /** The content of the build has the filename, alone or as the first of a list. */
  ghost predicate NamesFile(e: BuildEvent, name: string) {
    && e.content.Some?
    && (("filename", Str(name)) in e.content.value || exists names :: ("filename", Many(names)) in e.content.value && names != [] && names[0] == name)
  }

  /** With a commit pinned, the artifact comes from an event that carries this very commit, however new
      the others are; when no event carries it, nothing is chosen. */
  lemma NoFallbackToAnotherCommit(files: seq<FileEvent>, builds: seq<BuildEvent>, published: seq<Candidate>, q: Query, commit: string, artifact: Artifact)
    requires q.commit == Some(commit) && commit != "" && Published(files, published) && Objects(builds)
    requires IsChosen(published + InFlight(builds), q, artifact)
    ensures || (exists e :: e in files && OfCommit(ValuesOf(e.tags, "r"), ValuesOf(e.tags, "v"), commit))
            || (exists e, v, bare :: e in builds && BuildSays(e, v, bare) && OfCommit(v("r"), v("v"), commit))
  {
    var time := ChosenIsNewestServed(files, builds, published, q, artifact);
    if i :| 0 <= i < |files| && files[i].created == time && FileServes(files[i], q, artifact) {
      assert files[i] in files;
    } else {
      var k :| 0 <= k < |builds| && builds[k].created == time && BuildServes(builds[k], q, artifact);
      assert builds[k] in builds;
    }
  }
}
