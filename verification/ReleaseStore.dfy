/**
 Publishing a release to the object store: any number of publisher runs, interleaved at every put and
 every verification, each able to fail at any of them. Versioned objects are put without overwriting;
 channels and installer aliases are overwritten.

 Digests and sizes are arbitrary functions of an object's content.
 */
module ReleaseStore {
  import opened Common

  datatype Listing = Listing(name: string, sha256: string)

  /** `release.json`: the version (its tag is "rust-v" followed by it) and the assets with their digests. */
  datatype Metadata = Metadata(version: string, assets: seq<Listing>)

  datatype Content = File(data: seq<int>) | Document(metadata: Metadata)

  /** Object keys; `KeyText` spells them, and `KeyTextIsUnique` shows the spelling loses nothing. */
  datatype Key = Versioned(version: string, name: string) | Channel(channel: string) | Installer(name: string)

  /** A stored object: its content and the digest its uploader recorded in its metadata. */
  datatype Object = Object(content: Content, sha256: string)

  type Store = map<Key, Object>

  datatype Hashing = Hashing(sha256: Content -> string, size: Content -> nat)

  const CODEX := "codex/"
  const RELEASES := "releases/"
  const CHANNELS := "channels/"
  const RELEASE_JSON := "release.json"
  const INSTALL_SH := "install.sh"
  const INSTALL_PS1 := "install.ps1"
  const LATEST := "latest"
  const PRERELEASE := "prerelease"

  // ---------------------------------------------------------------------------------------------
  // A publisher run
  // ---------------------------------------------------------------------------------------------

  /** A downloaded asset: what GitHub declares about it, and the file itself. */
  datatype Asset = Asset(name: string, size: int, sha256: string, content: Content)

  datatype Release = Release(version: string, assets: seq<Asset>, makeLatest: bool, prerelease: bool)

  /** Where a run stands: before the named step, or finished. */
  datatype Point =
    | Start
    | PutAsset(i: nat) | VerifyAsset(i: nat)
    | PutMetadata | VerifyMetadata
    | PutInstaller(i: nat) | VerifyInstaller(i: nat)
    | PutChannel(i: nat) | VerifyChannel(i: nat)
    | Done
    | Stopped

  datatype Run = Run(release: Release, at: Point)

  /** What the environment does to one step. A failing put may or may not have written its object. */
  datatype Fate = Succeeds | FailsUntouched | FailsAfterWriting

  function InstallerNames(): seq<string> { [INSTALL_SH, INSTALL_PS1] }

  function ChannelsOf(release: Release): seq<string>
  {
    (if release.makeLatest then [LATEST] else []) + (if release.prerelease then [PRERELEASE] else [])
  }

  function MetadataOf(release: Release): (metadata: Metadata)
    ensures metadata.version == release.version && |metadata.assets| == |release.assets|
    ensures forall i :: 0 <= i < |release.assets| ==>
              metadata.assets[i] == Listing(release.assets[i].name, release.assets[i].sha256)
  {
    Metadata(release.version,
             seq(|release.assets|, i requires 0 <= i < |release.assets| =>
                   Listing(release.assets[i].name, release.assets[i].sha256)))
  }

  /** The checks before anything is uploaded: the tag, the asset names, and the files against their digests. */
  ghost predicate Publishable(hashing: Hashing, release: Release)
  {
    && IsVersion(release.version)
    && release.assets != []
    && (forall i :: 0 <= i < |release.assets| ==>
          && release.assets[i].name != "" && release.assets[i].name != RELEASE_JSON
          && '/' !in release.assets[i].name
          && release.assets[i].size == hashing.size(release.assets[i].content)
          && release.assets[i].sha256 == hashing.sha256(release.assets[i].content))
    && (forall i, j :: 0 <= i < j < |release.assets| ==> release.assets[i].name != release.assets[j].name)
  }

  /** The asset with this name, if the release has one. */
  function Find(assets: seq<Asset>, name: string): Option<Asset>
  {
    if assets == [] then None
    else if assets[|assets| - 1].name == name then Some(assets[|assets| - 1])
    else Find(assets[..|assets| - 1], name)
  }

  /** `put_object`, with or without `--no-overwrite`. */
  function Put(store: Store, key: Key, entry: Object, overwrite: bool, fate: Fate): Store
  {
    if fate.FailsUntouched? || (!overwrite && key in store) then store else store[key := entry]
  }

  /** `verify_remote`: the object is there with the size and the recorded digest expected. */
  predicate Verified(hashing: Hashing, store: Store, key: Key, size: int, sha256: string)
  {
    key in store && hashing.size(store[key].content) == size && store[key].sha256 == sha256
  }

  function AfterMetadata(release: Release): Point
  {
    if !release.prerelease then PutInstaller(0) else AfterInstallers(release)
  }

  function AfterInstallers(release: Release): Point
  {
    if |ChannelsOf(release)| == 0 then Done else PutChannel(0)
  }

  function DocumentOf(hashing: Hashing, release: Release): Object
  {
    var content := Document(MetadataOf(release));
    Object(content, hashing.sha256(content))
  }

  function AssetKey(release: Release, i: nat): Key
    requires i < |release.assets|
  {
    Versioned(release.version, release.assets[i].name)
  }

  function MetadataKey(release: Release): Key
  {
    Versioned(release.version, RELEASE_JSON)
  }

  /** One step of one run. */
  ghost function Step(hashing: Hashing, store: Store, run: Run, fate: Fate): (Store, Point)
  {
    var release, document := run.release, DocumentOf(hashing, run.release);
    match run.at
    case Start => (store, if Publishable(hashing, release) then PutAsset(0) else Stopped)
    case PutAsset(i) =>
      if i < |release.assets| then
        var asset := release.assets[i];
        (Put(store, AssetKey(release, i), Object(asset.content, asset.sha256), false, fate),
         if fate.Succeeds? then VerifyAsset(i) else Stopped)
      else (store, PutMetadata)
    case VerifyAsset(i) =>
      (store,
       if i < |release.assets| && fate.Succeeds?
          && Verified(hashing, store, AssetKey(release, i), release.assets[i].size, release.assets[i].sha256)
       then PutAsset(i + 1) else Stopped)
    case PutMetadata =>
      (Put(store, MetadataKey(release), document, false, fate), if fate.Succeeds? then VerifyMetadata else Stopped)
    case VerifyMetadata =>
      (store,
       if fate.Succeeds?
          && Verified(hashing, store, MetadataKey(release), hashing.size(document.content), document.sha256)
       then AfterMetadata(release) else Stopped)
    case PutInstaller(i) =>
      if i < |InstallerNames()| then
        var asset := Find(release.assets, InstallerNames()[i]);
        if Find(release.assets, INSTALL_SH).None? || Find(release.assets, INSTALL_PS1).None? || asset.None?
        then (store, Stopped)
        else (Put(store, Installer(InstallerNames()[i]), Object(asset.value.content, asset.value.sha256), true, fate),
              if fate.Succeeds? then VerifyInstaller(i) else Stopped)
      else (store, AfterInstallers(release))
    case VerifyInstaller(i) =>
      (store,
       if i < |InstallerNames()| && fate.Succeeds? && Find(release.assets, InstallerNames()[i]).Some?
          && var asset := Find(release.assets, InstallerNames()[i]).value;
             Verified(hashing, store, Installer(InstallerNames()[i]), asset.size, asset.sha256)
       then PutInstaller(i + 1) else Stopped)
    case PutChannel(i) =>
      if i < |ChannelsOf(release)| then
        (Put(store, Channel(ChannelsOf(release)[i]), document, true, fate),
         if fate.Succeeds? then VerifyChannel(i) else Stopped)
      else (store, Done)
    case VerifyChannel(i) =>
      (store,
       if i < |ChannelsOf(release)| && fate.Succeeds?
          && Verified(hashing, store, Channel(ChannelsOf(release)[i]), hashing.size(document.content), document.sha256)
       then PutChannel(i + 1) else Stopped)
    case Done => (store, Done)
    case Stopped => (store, Stopped)
  }

  // ---------------------------------------------------------------------------------------------
  // Many runs
  // ---------------------------------------------------------------------------------------------

  datatype World = World(store: Store, runs: seq<Run>)

  /** A new run begins, or some run takes one step. */
  datatype Action = Begin(release: Release) | Advance(run: nat, fate: Fate)

  ghost function Act(hashing: Hashing, world: World, action: Action): World
  {
    match action
    case Begin(release) => world.(runs := world.runs + [Run(release, Start)])
    case Advance(r, fate) =>
      if r < |world.runs| then
        var (store, at) := Step(hashing, world.store, world.runs[r], fate);
        World(store, world.runs[r := Run(world.runs[r].release, at)])
      else world
  }

  ghost function Play(hashing: Hashing, world: World, actions: seq<Action>): World
  {
    if actions == [] then world
    else Act(hashing, Play(hashing, world, actions[..|actions| - 1]), actions[|actions| - 1])
  }

  // ---------------------------------------------------------------------------------------------
  // What every interleaving keeps
  // ---------------------------------------------------------------------------------------------

  /** Every object records the digest of what it holds. */
  ghost predicate Honest(hashing: Hashing, store: Store)
  {
    forall key :: key in store ==> store[key].sha256 == hashing.sha256(store[key].content)
  }

  /** Everything a metadata document promises is in the store under its version, and so is the document. */
  ghost predicate Backed(hashing: Hashing, store: Store, metadata: Metadata)
  {
    && (forall i :: 0 <= i < |metadata.assets| ==> AssetBacked(store, metadata, i))
    && Verified(hashing, store, Versioned(metadata.version, RELEASE_JSON),
                hashing.size(Document(metadata)), hashing.sha256(Document(metadata)))
  }

  ghost predicate AssetBacked(store: Store, metadata: Metadata, i: nat)
    requires i < |metadata.assets|
  {
    var key := Versioned(metadata.version, metadata.assets[i].name);
    key in store && store[key].sha256 == metadata.assets[i].sha256
  }

  /** A channel that is set holds a metadata document whose promises are kept. */
  ghost predicate ChannelsSound(hashing: Hashing, store: Store)
  {
    forall channel :: Channel(channel) in store ==>
      && store[Channel(channel)].content.Document?
      && Backed(hashing, store, store[Channel(channel)].content.metadata)
  }

  /** An installer alias that is set is a copy of some release's versioned installer. */
  ghost predicate InstallersSound(store: Store)
  {
    forall name :: Installer(name) in store ==> InstallerBacked(store, name, store[Installer(name)].sha256)
  }

  /** Some release has a file of this name and digest. */
  ghost predicate InstallerBacked(store: Store, name: string, sha256: string)
  {
    exists version :: Versioned(version, name) in store && store[Versioned(version, name)].sha256 == sha256
  }

  ghost predicate StoreSound(hashing: Hashing, store: Store)
  {
    Honest(hashing, store) && ChannelsSound(hashing, store) && InstallersSound(store)
  }

  /** How many assets of its release a run has seen verified. */
  function VerifiedAssets(run: Run): nat
  {
    match run.at
    case Start => 0
    case Stopped => 0
    case PutAsset(i) => i
    case VerifyAsset(i) => i
    case _ => |run.release.assets|
  }

  /** The run has seen its metadata verified under its version. */
  predicate PastMetadata(run: Run)
  {
    run.at.PutInstaller? || run.at.VerifyInstaller? || run.at.PutChannel? || run.at.VerifyChannel? || run.at.Done?
  }

  /** What a run has verified is still in the store. */
  ghost predicate RunSound(hashing: Hashing, store: Store, run: Run)
  {
    && (run.at.Start? || run.at.Stopped? || Publishable(hashing, run.release))
    && VerifiedAssets(run) <= |run.release.assets|
    && (forall i :: 0 <= i < VerifiedAssets(run) ==> AssetBacked(store, MetadataOf(run.release), i))
    && (PastMetadata(run) ==> Backed(hashing, store, MetadataOf(run.release)))
  }

  ghost predicate WorldSound(hashing: Hashing, world: World)
  {
    && StoreSound(hashing, world.store)
    && forall r :: 0 <= r < |world.runs| ==> RunSound(hashing, world.store, world.runs[r])
  }

  /** Versioned objects are write-once. */
  ghost predicate KeepsVersioned(store: Store, after: Store)
  {
    forall version, name :: Versioned(version, name) in store ==>
      Versioned(version, name) in after && after[Versioned(version, name)] == store[Versioned(version, name)]
  }

  lemma StepKeepsVersioned(hashing: Hashing, store: Store, run: Run, fate: Fate)
    ensures KeepsVersioned(store, Step(hashing, store, run, fate).0)
  {
  }

  lemma BackedStays(hashing: Hashing, store: Store, after: Store, metadata: Metadata)
    requires KeepsVersioned(store, after) && Backed(hashing, store, metadata)
    ensures Backed(hashing, after, metadata)
  {
    forall i | 0 <= i < |metadata.assets| ensures AssetBacked(after, metadata, i) {
      assert AssetBacked(store, metadata, i);
    }
  }

  lemma RunSoundStays(hashing: Hashing, store: Store, after: Store, run: Run)
    requires KeepsVersioned(store, after) && RunSound(hashing, store, run)
    ensures RunSound(hashing, after, run)
  {
    forall i | 0 <= i < VerifiedAssets(run) ensures AssetBacked(after, MetadataOf(run.release), i) {
      assert AssetBacked(store, MetadataOf(run.release), i);
    }
    if PastMetadata(run) {
      BackedStays(hashing, store, after, MetadataOf(run.release));
    }
  }

  /** The point a step reaches claims no more than the store before the step held. */
  lemma PointIsEarned(hashing: Hashing, store: Store, run: Run, fate: Fate)
    requires RunSound(hashing, store, run)
    ensures RunSound(hashing, store, Run(run.release, Step(hashing, store, run, fate).1))
  {
    hide IsVersion, Find, InstallerNames, ChannelsOf, Put, Publishable;
  }

  /** A step moves its own run on only past what it has seen in the store. */
  lemma StepKeepsRun(hashing: Hashing, store: Store, run: Run, fate: Fate)
    requires RunSound(hashing, store, run)
    ensures var (after, at) := Step(hashing, store, run, fate);
            RunSound(hashing, after, Run(run.release, at))
  {
    hide Step, RunSound;
    var (after, at) := Step(hashing, store, run, fate);
    PointIsEarned(hashing, store, run, fate);
    StepKeepsVersioned(hashing, store, run, fate);
    RunSoundStays(hashing, store, after, Run(run.release, at));
  }

  lemma {:induction false} FoundIsListed(assets: seq<Asset>, name: string)
    requires Find(assets, name).Some?
    ensures exists i :: 0 <= i < |assets| && assets[i] == Find(assets, name).value && assets[i].name == name
  {
    if assets[|assets| - 1].name != name {
      FoundIsListed(assets[..|assets| - 1], name);
      var i :| 0 <= i < |assets| - 1 && assets[..|assets| - 1][i] == Find(assets, name).value;
      assert assets[i] == Find(assets, name).value;
    }
  }

  /** A step that overwrites a mutable key does so only with something the versioned objects back. */
  lemma StepKeepsStore(hashing: Hashing, store: Store, run: Run, fate: Fate)
    requires StoreSound(hashing, store) && RunSound(hashing, store, run)
    ensures StoreSound(hashing, Step(hashing, store, run, fate).0)
  {
    StepKeepsVersioned(hashing, store, run, fate);
    StepKeepsHonest(hashing, store, run, fate);
    StepKeepsChannels(hashing, store, run, fate);
    StepKeepsInstallers(hashing, store, run, fate);
  }

  lemma StepKeepsHonest(hashing: Hashing, store: Store, run: Run, fate: Fate)
    requires Honest(hashing, store) && RunSound(hashing, store, run)
    ensures Honest(hashing, Step(hashing, store, run, fate).0)
  {
    hide IsVersion;
    if run.at.PutInstaller? && run.at.i < 2 && Find(run.release.assets, InstallerNames()[run.at.i]).Some? {
      FoundIsListed(run.release.assets, InstallerNames()[run.at.i]);
    }
  }

  lemma StepKeepsChannels(hashing: Hashing, store: Store, run: Run, fate: Fate)
    requires ChannelsSound(hashing, store) && RunSound(hashing, store, run)
    ensures ChannelsSound(hashing, Step(hashing, store, run, fate).0)
  {
    hide IsVersion;
    var after := Step(hashing, store, run, fate).0;
    StepKeepsVersioned(hashing, store, run, fate);
    forall channel | Channel(channel) in after
      ensures after[Channel(channel)].content.Document?
           && Backed(hashing, after, after[Channel(channel)].content.metadata)
    {
      if Channel(channel) in store && after[Channel(channel)] == store[Channel(channel)] {
        BackedStays(hashing, store, after, store[Channel(channel)].content.metadata);
      } else {
        BackedStays(hashing, store, after, MetadataOf(run.release));
      }
    }
  }

  lemma InstallerStaysBacked(store: Store, after: Store, name: string, sha256: string)
    requires KeepsVersioned(store, after) && InstallerBacked(store, name, sha256)
    ensures InstallerBacked(after, name, sha256)
  {
    var version :| Versioned(version, name) in store && store[Versioned(version, name)].sha256 == sha256;
    assert Versioned(version, name) in after;
  }

  /** A run past its metadata backs every asset it may put under an alias. */
  lemma AssetBacksInstaller(hashing: Hashing, store: Store, run: Run, name: string)
    requires RunSound(hashing, store, run) && PastMetadata(run) && Find(run.release.assets, name).Some?
    ensures InstallerBacked(store, name, Find(run.release.assets, name).value.sha256)
  {
    hide IsVersion, Find;
    FoundIsListed(run.release.assets, name);
    var i :| 0 <= i < |run.release.assets| && run.release.assets[i] == Find(run.release.assets, name).value;
    assert AssetBacked(store, MetadataOf(run.release), i);
    assert Versioned(run.release.version, name) in store;
  }

  /** What a step leaves under an alias was there before, or is an asset of a release past its metadata. */
  lemma AliasIsOldOrAsset(hashing: Hashing, store: Store, run: Run, fate: Fate, name: string)
    requires Installer(name) in Step(hashing, store, run, fate).0
    ensures var after := Step(hashing, store, run, fate).0[Installer(name)];
            || (Installer(name) in store && after == store[Installer(name)])
            || (PastMetadata(run) && Find(run.release.assets, name).Some?
                && after.sha256 == Find(run.release.assets, name).value.sha256)
  {
    hide IsVersion, Find, Publishable;
  }

  lemma StepKeepsInstallers(hashing: Hashing, store: Store, run: Run, fate: Fate)
    requires InstallersSound(store) && RunSound(hashing, store, run)
    ensures InstallersSound(Step(hashing, store, run, fate).0)
  {
    hide Step, RunSound, Find, InstallerBacked;
    var after := Step(hashing, store, run, fate).0;
    StepKeepsVersioned(hashing, store, run, fate);
    forall name | Installer(name) in after ensures InstallerBacked(after, name, after[Installer(name)].sha256) {
      AliasIsOldOrAsset(hashing, store, run, fate, name);
      if PastMetadata(run) && Find(run.release.assets, name).Some? {
        AssetBacksInstaller(hashing, store, run, name);
      }
      assert InstallerBacked(store, name, after[Installer(name)].sha256);
      InstallerStaysBacked(store, after, name, after[Installer(name)].sha256);
    }
  }

  /** One action of the whole system keeps everything sound. */
  lemma ActKeeps(hashing: Hashing, world: World, action: Action)
    requires WorldSound(hashing, world)
    ensures WorldSound(hashing, Act(hashing, world, action))
    ensures KeepsVersioned(world.store, Act(hashing, world, action).store)
  {
    if action.Advance? && action.run < |world.runs| {
      var run := world.runs[action.run];
      var after := Step(hashing, world.store, run, action.fate).0;
      StepKeepsVersioned(hashing, world.store, run, action.fate);
      StepKeepsStore(hashing, world.store, run, action.fate);
      StepKeepsRun(hashing, world.store, run, action.fate);
      forall r | 0 <= r < |world.runs| ensures RunSound(hashing, after, world.runs[r]) {
        RunSoundStays(hashing, world.store, after, world.runs[r]);
      }
    }
  }

  /**
   In every interleaving of any number of runs, with failures anywhere: channels and installer aliases only
   ever hold what the versioned objects back, a finished run's release is complete, and no versioned object
   ever changes.
   */
  lemma {:induction false} EveryInterleavingSound(hashing: Hashing, world: World, actions: seq<Action>)
    requires WorldSound(hashing, world)
    ensures WorldSound(hashing, Play(hashing, world, actions))
    ensures KeepsVersioned(world.store, Play(hashing, world, actions).store)
  {
    if actions != [] {
      var fewer := actions[..|actions| - 1];
      EveryInterleavingSound(hashing, world, fewer);
      ActKeeps(hashing, Play(hashing, world, fewer), actions[|actions| - 1]);
    }
  }

  /** In a sound store a channel's document is the very one at its version's `release.json`, if digests tell contents apart. */
  lemma ChannelIsRelease(hashing: Hashing, store: Store, channel: string)
    requires StoreSound(hashing, store) && Channel(channel) in store
    requires forall a, b :: hashing.sha256(a) == hashing.sha256(b) ==> a == b
    ensures store[Channel(channel)].content.Document?
    ensures var key := Versioned(store[Channel(channel)].content.metadata.version, RELEASE_JSON);
            key in store && store[key].content == store[Channel(channel)].content
  {
  }

  // ---------------------------------------------------------------------------------------------
  // Key spelling
  // ---------------------------------------------------------------------------------------------

  function KeyText(key: Key): string
  {
    match key
    case Versioned(version, name) => CODEX + (RELEASES + (version + ("/" + name)))
    case Channel(channel) => CODEX + (CHANNELS + channel)
    case Installer(name) => CODEX + name
  }

  lemma KeySpelling(version: string, name: string, channel: string)
    ensures KeyText(Versioned(version, name)) == "codex/releases/" + version + "/" + name
    ensures KeyText(Channel(channel)) == "codex/channels/" + channel
    ensures KeyText(Installer(name)) == "codex/" + name
  {
    assert CODEX + RELEASES == "codex/releases/" && CODEX + CHANNELS == "codex/channels/";
  }

  /** The keys the publisher uses: versions and names without slashes. */
  predicate Spellable(key: Key)
  {
    match key
    case Versioned(version, name) => '/' !in version && '/' !in name
    case Channel(channel) => '/' !in channel
    case Installer(name) => '/' !in name
  }

  /** The position of the first slash, or the length when there is none. */
  function SlashAt(text: string): (n: nat)
    ensures n <= |text| && '/' !in text[..n] && (n < |text| ==> text[n] == '/')
  {
    if text == [] || text[0] == '/' then 0 else 1 + SlashAt(text[1..])
  }

  function After(text: string, n: nat): string
  {
    if n <= |text| then text[n..] else []
  }

  /** Reads a key back from its spelling. */
  function ReadKey(text: string): Key
  {
    var body := After(text, |CODEX|);
    if RELEASES <= body then
      var rest := After(body, |RELEASES|);
      Versioned(rest[..SlashAt(rest)], After(rest, SlashAt(rest) + 1))
    else if CHANNELS <= body then Channel(After(body, |CHANNELS|))
    else Installer(body)
  }

  lemma {:induction false} SlashFound(version: string, name: string)
    requires '/' !in version
    ensures SlashAt(version + ("/" + name)) == |version|
  {
    if version != [] {
      assert (version + ("/" + name))[1..] == version[1..] + ("/" + name);
      SlashFound(version[1..], name);
    }
  }

  lemma AfterConcat(start: string, rest: string)
    ensures After(start + rest, |start|) == rest
    ensures start <= start + rest && (start + rest)[..|start|] == start
  {
  }

  lemma ReadsVersioned(version: string, name: string)
    requires '/' !in version
    ensures ReadKey(KeyText(Versioned(version, name))) == Versioned(version, name)
  {
    hide After, SlashAt;
    var rest := version + ("/" + name);
    AfterConcat(CODEX, RELEASES + rest);
    AfterConcat(RELEASES, rest);
    SlashFound(version, name);
    AfterConcat(version, "/" + name);
    assert rest == (version + "/") + name;
    AfterConcat(version + "/", name);
  }

  lemma ReadsBack(key: Key)
    requires Spellable(key)
    ensures ReadKey(KeyText(key)) == key
  {
    match key
    case Versioned(version, name) =>
      ReadsVersioned(version, name);
    case Channel(channel) =>
      var body := CHANNELS + channel;
      assert After(KeyText(key), |CODEX|) == body;
      assert body[0] == 'c' && RELEASES[0] == 'r';
      assert After(body, |CHANNELS|) == channel;
    case Installer(name) =>
      assert After(KeyText(key), |CODEX|) == name;
      assert RELEASES[8] == '/' && CHANNELS[8] == '/';
  }

  /** Different keys are spelled differently, so a put to one never touches another. */
  lemma KeyTextIsUnique(a: Key, b: Key)
    requires Spellable(a) && Spellable(b)
    ensures KeyText(a) == KeyText(b) <==> a == b
  {
    ReadsBack(a);
    ReadsBack(b);
  }

  /** Three dotted numbers. */
  ghost predicate IsTriple(s: string)
  {
    exists a, b, c :: IsDigits(a) && IsDigits(b) && IsDigits(c) && s == a + "." + b + "." + c
  }

  /** Up to `most` dotted numbers after a name. */
  ghost predicate IsCounted(s: string, name: string, most: nat)
  {
    || s == name
    || (most >= 1 && exists n :: IsDigits(n) && s == name + "." + n)
    || (most >= 2 && exists n, m :: IsDigits(n) && IsDigits(m) && s == name + "." + n + "." + m)
  }

  /** The release-tag pattern: three numbers, then optionally an alpha with up to two more or a beta with one. */
  ghost predicate IsVersion(version: string)
  {
    exists base, suffix :: version == base + suffix && IsTriple(base)
                        && (suffix == "" || IsCounted(suffix, "-alpha", 2) || IsCounted(suffix, "-beta", 1))
  }

  /** So a version never contains a slash, and every key a publishable release uses can be spelled. */
  lemma VersionsAreSpellable(hashing: Hashing, release: Release)
    requires Publishable(hashing, release)
    ensures '/' !in release.version
    ensures Spellable(MetadataKey(release))
    ensures forall i :: 0 <= i < |release.assets| ==> Spellable(AssetKey(release, i))
  {
    var base, suffix :| release.version == base + suffix && IsTriple(base)
                     && (suffix == "" || IsCounted(suffix, "-alpha", 2) || IsCounted(suffix, "-beta", 1));
    TripleHasNoSlash(base);
    if suffix != "" {
      CountedHasNoSlash(suffix, if IsCounted(suffix, "-alpha", 2) then "-alpha" else "-beta", 2);
    }
  }

  lemma TripleHasNoSlash(s: string)
    requires IsTriple(s)
    ensures '/' !in s
  {
  }

  lemma CountedHasNoSlash(s: string, name: string, most: nat)
    requires IsCounted(s, name, most) && '/' !in name
    ensures '/' !in s
  {
  }
}
