/**
 The publisher script's `main`, run alone against a bucket, proved to be a run of the step machine in
 ReleaseStore: so what holds in every interleaving of steps holds of it.
 */
module ReleasePublisher {
  import opened ReleaseStore

  /** Where a run alone in the store stands after `k` steps, the `n`-th of which meets `fates(n)`. */
  ghost function Solo(hashing: Hashing, store: Store, release: Release, fates: nat -> Fate, k: nat): (Store, Point)
  {
    if k == 0 then (store, Start)
    else
      var (earlier, at) := Solo(hashing, store, release, fates, k - 1);
      Step(hashing, earlier, Run(release, at), fates(k - 1))
  }

  lemma SoloNext(hashing: Hashing, store: Store, release: Release, fates: nat -> Fate, k: nat)
    ensures var (earlier, at) := Solo(hashing, store, release, fates, k);
            Solo(hashing, store, release, fates, k + 1) == Step(hashing, earlier, Run(release, at), fates(k))
  {
  }

  /** From this point the run puts this object under this key, then verifies it, then moves on. */
  ghost predicate PutsAndVerifies(hashing: Hashing, store: Store, release: Release, from: Point, via: Point, to: Point,
                                  key: Key, entry: Object, size: int, overwrite: bool, first: Fate, second: Fate)
  {
    var after := Put(store, key, entry, overwrite, first);
    && Step(hashing, store, Run(release, from), first) == (after, if first.Succeeds? then via else Stopped)
    && Step(hashing, after, Run(release, via), second)
       == (after, if second.Succeeds? && Verified(hashing, after, key, size, entry.sha256) then to else Stopped)
  }

  // ---------------------------------------------------------------------------------------------
  // What a run has moved
  // ---------------------------------------------------------------------------------------------

  /** How many installer aliases a run at this point has set. */
  function InstallersMoved(run: Run): nat
  {
    match run.at
    case PutInstaller(i) => i
    case VerifyInstaller(i) => i + 1
    case PutChannel(_) => if run.release.prerelease then 0 else |InstallerNames()|
    case VerifyChannel(_) => if run.release.prerelease then 0 else |InstallerNames()|
    case Done => if run.release.prerelease then 0 else |InstallerNames()|
    case _ => 0
  }

  /** How many of its channels a run at this point has set. */
  function ChannelsMoved(run: Run): nat
  {
    match run.at
    case PutChannel(i) => i
    case VerifyChannel(i) => i + 1
    case Done => |ChannelsOf(run.release)|
    case _ => 0
  }

  /** The alias holds the release's installer of that name. */
  predicate HoldsInstaller(store: Store, release: Release, name: string)
  {
    && Find(release.assets, name).Some? && Installer(name) in store
    && var asset := Find(release.assets, name).value; store[Installer(name)] == Object(asset.content, asset.sha256)
  }

  /** The channel holds the release's metadata document. */
  predicate HoldsRelease(hashing: Hashing, store: Store, release: Release, channel: string)
  {
    Channel(channel) in store && store[Channel(channel)] == DocumentOf(hashing, release)
  }

  ghost predicate MovedInstallers(store: Store, run: Run)
  {
    forall i :: 0 <= i < InstallersMoved(run) && i < |InstallerNames()| ==>
      HoldsInstaller(store, run.release, InstallerNames()[i])
  }

  ghost predicate MovedChannels(hashing: Hashing, store: Store, run: Run)
  {
    forall i :: 0 <= i < ChannelsMoved(run) && i < |ChannelsOf(run.release)| ==>
      HoldsRelease(hashing, store, run.release, ChannelsOf(run.release)[i])
  }

  /** The aliases and the channels have different names. */
  lemma NamesDiffer(release: Release)
    ensures forall i, j :: 0 <= i < j < |InstallerNames()| ==> InstallerNames()[i] != InstallerNames()[j]
    ensures forall i, j :: 0 <= i < j < |ChannelsOf(release)| ==> ChannelsOf(release)[i] != ChannelsOf(release)[j]
  {
    assert |INSTALL_SH| != |INSTALL_PS1| && |LATEST| != |PRERELEASE|;
  }

  lemma StepMovesInstallers(hashing: Hashing, store: Store, run: Run, fate: Fate)
    requires MovedInstallers(store, run)
    ensures var (after, at) := Step(hashing, store, run, fate); MovedInstallers(after, Run(run.release, at))
  {
    NamesDiffer(run.release);
    hide Find, InstallerNames, ChannelsOf, Publishable, DocumentOf, Verified;
  }

  lemma StepMovesChannels(hashing: Hashing, store: Store, run: Run, fate: Fate)
    requires MovedChannels(hashing, store, run)
    ensures var (after, at) := Step(hashing, store, run, fate); MovedChannels(hashing, after, Run(run.release, at))
  {
    NamesDiffer(run.release);
    hide Find, InstallerNames, ChannelsOf, Publishable, DocumentOf, Verified;
  }

  lemma {:induction false} SoloMoves(hashing: Hashing, store: Store, release: Release, fates: nat -> Fate, k: nat)
    ensures var (after, at) := Solo(hashing, store, release, fates, k);
            MovedInstallers(after, Run(release, at)) && MovedChannels(hashing, after, Run(release, at))
  {
    hide Step, MovedInstallers, MovedChannels;
    if k == 0 {
      NothingMoved(hashing, store, release);
    } else {
      var (earlier, at) := Solo(hashing, store, release, fates, k - 1);
      SoloMoves(hashing, store, release, fates, k - 1);
      StepMovesInstallers(hashing, earlier, Run(release, at), fates(k - 1));
      StepMovesChannels(hashing, earlier, Run(release, at), fates(k - 1));
    }
  }

  lemma NothingMoved(hashing: Hashing, store: Store, release: Release)
    ensures MovedInstallers(store, Run(release, Start)) && MovedChannels(hashing, store, Run(release, Start))
  {
  }

  // ---------------------------------------------------------------------------------------------
  // What a publication leaves, key by key
  // ---------------------------------------------------------------------------------------------

  /** The object is the release's metadata document: its version, and its assets with their digests, in order. */
  ghost predicate Describes(hashing: Hashing, entry: Object, release: Release)
  {
    && entry.content.Document? && entry.sha256 == hashing.sha256(entry.content)
    && entry.content.metadata.version == release.version
    && |entry.content.metadata.assets| == |release.assets|
    && forall i :: 0 <= i < |release.assets| ==>
         entry.content.metadata.assets[i] == Listing(release.assets[i].name, release.assets[i].sha256)
  }

  ghost predicate ChannelSet(hashing: Hashing, store: Store, release: Release, channel: string)
  {
    Channel(channel) in store && Describes(hashing, store[Channel(channel)], release)
  }

  /** The alias holds an asset of the release with the alias's own name. */
  ghost predicate AliasSet(store: Store, release: Release, name: string)
  {
    && Installer(name) in store
    && exists i :: 0 <= i < |release.assets| && release.assets[i].name == name
                && store[Installer(name)] == Object(release.assets[i].content, release.assets[i].sha256)
  }

  /** The channels and aliases the release is to move hold it. */
  ghost predicate Announced(hashing: Hashing, store: Store, release: Release)
  {
    && (release.makeLatest ==> ChannelSet(hashing, store, release, "latest"))
    && (release.prerelease ==> ChannelSet(hashing, store, release, "prerelease"))
    && (!release.prerelease ==> AliasSet(store, release, "install.sh") && AliasSet(store, release, "install.ps1"))
  }

  lemma HeldIsSet(hashing: Hashing, store: Store, release: Release)
    ensures forall channel :: HoldsRelease(hashing, store, release, channel) ==> ChannelSet(hashing, store, release, channel)
    ensures forall name :: HoldsInstaller(store, release, name) ==> AliasSet(store, release, name)
  {
    hide Find;
    forall name | HoldsInstaller(store, release, name) ensures AliasSet(store, release, name) {
      FoundIsListed(release.assets, name);
    }
  }

  lemma ChannelsAre(release: Release)
    ensures release.makeLatest ==> "latest" in ChannelsOf(release)
    ensures release.prerelease ==> "prerelease" in ChannelsOf(release)
    ensures forall channel :: channel in ChannelsOf(release) ==>
              (channel == "latest" && release.makeLatest) || (channel == "prerelease" && release.prerelease)
  {
    var channels := ChannelsOf(release);
    assert release.makeLatest ==> channels[0] == "latest";
    assert release.prerelease ==> channels[|channels| - 1] == "prerelease";
  }

  lemma InstallersAre()
    ensures forall name :: name in InstallerNames() <==> name == "install.sh" || name == "install.ps1"
  {
    assert InstallerNames()[0] == "install.sh" && InstallerNames()[1] == "install.ps1";
  }

  /** A publication alone in the store that reports success has moved everything it was to move. */
  lemma PublishedReleaseIsAnnounced(hashing: Hashing, store: Store, release: Release, fates: nat -> Fate, k: nat)
    requires Solo(hashing, store, release, fates, k).1 == Done
    ensures Announced(hashing, Solo(hashing, store, release, fates, k).0, release)
  {
    hide Solo, ChannelsOf, InstallerNames, HoldsRelease, HoldsInstaller, ChannelSet, AliasSet;
    SoloMoves(hashing, store, release, fates, k);
    HeldIsSet(hashing, Solo(hashing, store, release, fates, k).0, release);
    ChannelsAre(release);
    InstallersAre();
    var after := Solo(hashing, store, release, fates, k).0;
    forall channel | channel in ChannelsOf(release) ensures HoldsRelease(hashing, after, release, channel) {
      var i :| 0 <= i < |ChannelsOf(release)| && ChannelsOf(release)[i] == channel;
    }
    forall name | name in InstallerNames() && !release.prerelease ensures HoldsInstaller(after, release, name) {
      var i :| 0 <= i < |InstallerNames()| && InstallerNames()[i] == name;
    }
  }

  /** The keys a publication of the release may write. */
  predicate Own(release: Release, key: Key)
  {
    match key
    case Versioned(version, name) =>
      && version == release.version
      && (name == "release.json" || exists i :: 0 <= i < |release.assets| && release.assets[i].name == name)
    case Channel(channel) =>
      (channel == "latest" && release.makeLatest) || (channel == "prerelease" && release.prerelease)
    case Installer(name) => !release.prerelease && (name == "install.sh" || name == "install.ps1")
  }

  ghost predicate KeptAt(before: Store, after: Store, key: Key)
  {
    (key in before <==> key in after) && (key in before ==> after[key] == before[key])
  }

  /** Nothing under any other key has changed. */
  ghost predicate OthersKept(before: Store, after: Store, release: Release)
  {
    forall key {:trigger KeptAt(before, after, key)} :: !Own(release, key) ==> KeptAt(before, after, key)
  }

  /** Only a stable release gets to the aliases. */
  predicate OnCourse(run: Run)
  {
    run.at.PutInstaller? || run.at.VerifyInstaller? ==> !run.release.prerelease
  }

  lemma StepTouches(hashing: Hashing, store: Store, run: Run, fate: Fate)
    requires OnCourse(run)
    ensures var (after, at) := Step(hashing, store, run, fate);
            OthersKept(store, after, run.release) && OnCourse(Run(run.release, at))
  {
    hide Find, Publishable, DocumentOf, Verified, InstallerNames, ChannelsOf;
    ChannelsAre(run.release);
    InstallersAre();
    var release := run.release;
    match run.at
    case PutAsset(i) =>
      if i < |release.assets| {
        assert Own(release, AssetKey(release, i));
      }
    case PutMetadata => assert Own(release, MetadataKey(release));
    case PutInstaller(i) =>
      if i < |InstallerNames()| {
        assert InstallerNames()[i] in InstallerNames();
      }
    case PutChannel(i) =>
      if i < |ChannelsOf(release)| {
        assert ChannelsOf(release)[i] in ChannelsOf(release);
      }
    case _ =>
  }

  lemma {:induction false} SoloTouches(hashing: Hashing, store: Store, release: Release, fates: nat -> Fate, k: nat)
    ensures var (after, at) := Solo(hashing, store, release, fates, k);
            OthersKept(store, after, release) && OnCourse(Run(release, at))
  {
    hide Step, Own;
    if k > 0 {
      var (earlier, at) := Solo(hashing, store, release, fates, k - 1);
      SoloTouches(hashing, store, release, fates, k - 1);
      StepTouches(hashing, earlier, Run(release, at), fates(k - 1));
      var after := Step(hashing, earlier, Run(release, at), fates(k - 1)).0;
      forall key | !Own(release, key) ensures KeptAt(store, after, key) {
        assert KeptAt(store, earlier, key) && KeptAt(earlier, after, key);
      }
    }
  }

  /** Every asset, and the metadata document, is in the store under the version with its size and digest. */
  ghost predicate AllStored(hashing: Hashing, store: Store, release: Release)
  {
    && (forall i :: 0 <= i < |release.assets| ==> AssetStored(store, release, i))
    && Versioned(release.version, "release.json") in store
    && store[Versioned(release.version, "release.json")].sha256 == hashing.sha256(Document(MetadataOf(release)))
    && hashing.size(store[Versioned(release.version, "release.json")].content)
       == hashing.size(Document(MetadataOf(release)))
  }

  ghost predicate AssetStored(store: Store, release: Release, i: nat)
    requires i < |release.assets|
  {
    var key := Versioned(release.version, release.assets[i].name);
    key in store && store[key].sha256 == release.assets[i].sha256
  }

  lemma {:induction false} SoloRunSound(hashing: Hashing, store: Store, release: Release, fates: nat -> Fate, k: nat)
    ensures var (after, at) := Solo(hashing, store, release, fates, k); RunSound(hashing, after, Run(release, at))
  {
    hide Step, RunSound;
    if k == 0 {
      StartIsSound(hashing, store, release);
    } else {
      var (earlier, at) := Solo(hashing, store, release, fates, k - 1);
      SoloRunSound(hashing, store, release, fates, k - 1);
      StepKeepsRun(hashing, earlier, Run(release, at), fates(k - 1));
    }
  }

  lemma StartIsSound(hashing: Hashing, store: Store, release: Release)
    ensures RunSound(hashing, store, Run(release, Start))
  {
  }

  /** A publication that reports success has stored the whole release, whatever was there before. */
  lemma PublishedReleaseIsStored(hashing: Hashing, store: Store, release: Release, fates: nat -> Fate, k: nat)
    requires Solo(hashing, store, release, fates, k).1 == Done
    ensures AllStored(hashing, Solo(hashing, store, release, fates, k).0, release)
  {
    hide Solo, Publishable, MetadataOf;
    SoloRunSound(hashing, store, release, fates, k);
    var after := Solo(hashing, store, release, fates, k).0;
    forall i | 0 <= i < |release.assets| ensures AssetStored(after, release, i) {
      assert AssetBacked(after, MetadataOf(release), i);
    }
  }

  // ---------------------------------------------------------------------------------------------
  // When a publication succeeds
  // ---------------------------------------------------------------------------------------------

  /** No step is made to fail. */
  ghost predicate Smooth(fates: nat -> Fate)
  {
    forall n :: fates(n) == Succeeds
  }

  /** Nothing stands in the way of an object with this size and digest under a write-once key. */
  predicate Free(hashing: Hashing, store: Store, key: Key, size: int, sha256: string)
  {
    key in store ==> hashing.size(store[key].content) == size && store[key].sha256 == sha256
  }

  predicate AssetFree(hashing: Hashing, store: Store, release: Release, i: nat)
    requires i < |release.assets|
  {
    Free(hashing, store, Versioned(release.version, release.assets[i].name), release.assets[i].size,
         release.assets[i].sha256)
  }

  predicate DocumentFree(hashing: Hashing, store: Store, release: Release)
  {
    Free(hashing, store, Versioned(release.version, "release.json"), hashing.size(Document(MetadataOf(release))),
         hashing.sha256(Document(MetadataOf(release))))
  }

  ghost predicate HasAsset(release: Release, name: string)
  {
    exists i :: 0 <= i < |release.assets| && release.assets[i].name == name
  }

  /** What the store and the release must be for a publication to go through. */
  ghost predicate CanPublish(hashing: Hashing, store: Store, release: Release)
  {
    && Publishable(hashing, release)
    && (!release.prerelease ==> HasAsset(release, "install.sh") && HasAsset(release, "install.ps1"))
    && (forall i :: 0 <= i < |release.assets| ==> AssetFree(hashing, store, release, i))
    && DocumentFree(hashing, store, release)
  }

  lemma {:induction false} FindsAsset(assets: seq<Asset>, name: string)
    ensures Find(assets, name).Some? <==> exists i :: 0 <= i < |assets| && assets[i].name == name
  {
    if assets != [] {
      var n := |assets| - 1;
      FindsAsset(assets[..n], name);
      assert forall i :: 0 <= i < n ==> assets[..n][i] == assets[i];
    }
  }

  /** A put that succeeds is verified exactly when nothing stood in its way. */
  lemma PutIsVerified(hashing: Hashing, store: Store, key: Key, entry: Object, overwrite: bool)
    ensures Verified(hashing, Put(store, key, entry, overwrite, Succeeds), key, hashing.size(entry.content), entry.sha256)
       <==> overwrite || Free(hashing, store, key, hashing.size(entry.content), entry.sha256)
  {
  }

  lemma AssetIsSized(hashing: Hashing, release: Release, name: string)
    requires Publishable(hashing, release) && Find(release.assets, name).Some?
    ensures var asset := Find(release.assets, name).value; asset.size == hashing.size(asset.content)
  {
    hide IsVersion, Find;
    FoundIsListed(release.assets, name);
  }

  /** The keys of a publishable release are all different. */
  lemma KeysDiffer(hashing: Hashing, release: Release, i: nat)
    requires Publishable(hashing, release) && i < |release.assets|
    ensures release.assets[i].size == hashing.size(release.assets[i].content)
    ensures AssetKey(release, i) != MetadataKey(release)
    ensures forall j :: 0 <= j < |release.assets| && j != i ==> AssetKey(release, j) != AssetKey(release, i)
  {
    hide IsVersion;
  }

  lemma FreeToo(hashing: Hashing, before: Store, after: Store, key: Key, size: int, sha256: string)
    requires KeptAt(before, after, key)
    ensures Free(hashing, before, key, size, sha256) <==> Free(hashing, after, key, size, sha256)
  {
  }

  class Bucket {
    const hashing: Hashing
    var store: Store

    method PutObject(key: Key, entry: Object, overwrite: bool, fate: Fate) returns (ok: bool)
      modifies this
      ensures store == Put(old(store), key, entry, overwrite, fate) && ok == fate.Succeeds?
    {
      if !fate.FailsUntouched? && (overwrite || key !in store) {
        store := store[key := entry];
      }
      ok := fate.Succeeds?;
    }

    method VerifyRemote(key: Key, size: int, sha256: string, fate: Fate) returns (ok: bool)
      ensures ok == (fate.Succeeds? && Verified(hashing, store, key, size, sha256))
    {
      ok := fate.Succeeds? && Verified(hashing, store, key, size, sha256);
    }

    /**
     A put and its verification: the two steps that lead the run from one point through another to a third.
     */
    method PutVerified(key: Key, entry: Object, size: int, overwrite: bool, fates: nat -> Fate, k: nat,
                       ghost before: Store, ghost release: Release, ghost from: Point, ghost via: Point, ghost to: Point)
      returns (ok: bool, k': nat)
      requires Solo(hashing, before, release, fates, k) == (store, from)
      requires PutsAndVerifies(hashing, store, release, from, via, to, key, entry, size, overwrite, fates(k), fates(k + 1))
      modifies this
      ensures Solo(hashing, before, release, fates, k') == (store, if ok then to else Stopped)
      ensures store == Put(old(store), key, entry, overwrite, fates(k))
      ensures Smooth(fates) ==> (ok <==> Verified(hashing, store, key, size, entry.sha256))
    {
      SoloNext(hashing, before, release, fates, k);
      SoloNext(hashing, before, release, fates, k + 1);
      hide Solo, Step, Put, Verified;
      ok := PutObject(key, entry, overwrite, fates(k));
      if ok {
        ok := VerifyRemote(key, size, entry.sha256, fates(k + 1));
        k' := k + 2;
      } else {
        k' := k + 1;
      }
    }

    /** Each versioned asset in turn: put without overwriting, then verified. */
    method PublishAssets(release: Release, fates: nat -> Fate, ghost before: Store) returns (ok: bool, k: nat)
      requires Solo(hashing, before, release, fates, 1) == (store, PutAsset(0)) && Publishable(hashing, release)
      modifies this
      ensures Solo(hashing, before, release, fates, k) == (store, if ok then PutMetadata else Stopped)
      ensures KeptAt(old(store), store, MetadataKey(release))
      ensures Smooth(fates) ==>
                (ok <==> forall i :: 0 <= i < |release.assets| ==> AssetFree(hashing, old(store), release, i))
    {
      hide Solo, Publishable, Free;
      k := 1;
      for i := 0 to |release.assets|
        invariant Solo(hashing, before, release, fates, k) == (store, PutAsset(i))
        invariant KeptAt(old(store), store, MetadataKey(release))
        invariant forall j :: i <= j < |release.assets| ==> KeptAt(old(store), store, AssetKey(release, j))
        invariant Smooth(fates) ==> forall j :: 0 <= j < i ==> AssetFree(hashing, old(store), release, j)
      {
        var asset := release.assets[i];
        ghost var had := store;
        KeysDiffer(hashing, release, i);
        ok, k := PutVerified(AssetKey(release, i), Object(asset.content, asset.sha256), asset.size, false, fates, k,
                             before, release, PutAsset(i), VerifyAsset(i), PutAsset(i + 1));
        PutIsVerified(hashing, had, AssetKey(release, i), Object(asset.content, asset.sha256), false);
        FreeToo(hashing, old(store), had, AssetKey(release, i), asset.size, asset.sha256);
        assert Smooth(fates) ==> (ok <==> AssetFree(hashing, old(store), release, i));
        if !ok {
          return;
        }
      }
      SoloNext(hashing, before, release, fates, k);
      ok, k := true, k + 1;
    }

    method PublishMetadata(release: Release, fates: nat -> Fate, ghost before: Store, k: nat)
      returns (ok: bool, k': nat)
      requires Solo(hashing, before, release, fates, k) == (store, PutMetadata)
      modifies this
      ensures Solo(hashing, before, release, fates, k') == (store, if ok then AfterMetadata(release) else Stopped)
      ensures Smooth(fates) ==> (ok <==> DocumentFree(hashing, old(store), release))
    {
      hide Solo, AfterMetadata;
      var document := DocumentOf(hashing, release);
      PutIsVerified(hashing, store, MetadataKey(release), document, false);
      ok, k' := PutVerified(MetadataKey(release), document, hashing.size(document.content), false, fates, k,
                            before, release, PutMetadata, VerifyMetadata, AfterMetadata(release));
    }

    /** `publish_installers`: nothing is touched unless the release has them all. */
    method PublishInstallers(release: Release, fates: nat -> Fate, ghost before: Store, k: nat)
      returns (ok: bool, k': nat)
      requires Solo(hashing, before, release, fates, k) == (store, PutInstaller(0))
      modifies this
      ensures Solo(hashing, before, release, fates, k') == (store, if ok then AfterInstallers(release) else Stopped)
      ensures Smooth(fates) && Publishable(hashing, release) ==>
                (ok <==> HasAsset(release, "install.sh") && HasAsset(release, "install.ps1"))
    {
      hide Solo, AfterInstallers, Find, Publishable;
      SoloNext(hashing, before, release, fates, k);
      FindsAsset(release.assets, INSTALL_SH);
      FindsAsset(release.assets, INSTALL_PS1);
      if Find(release.assets, INSTALL_SH).None? || Find(release.assets, INSTALL_PS1).None? {
        return false, k + 1;
      }
      k' := k;
      for i := 0 to |InstallerNames()|
        invariant Solo(hashing, before, release, fates, k') == (store, PutInstaller(i))
      {
        var name := InstallerNames()[i];
        var asset := Find(release.assets, name).value;
        if Publishable(hashing, release) {
          AssetIsSized(hashing, release, name);
        }
        PutIsVerified(hashing, store, Installer(name), Object(asset.content, asset.sha256), true);
        ok, k' := PutVerified(Installer(name), Object(asset.content, asset.sha256), asset.size, true, fates, k',
                              before, release, PutInstaller(i), VerifyInstaller(i), PutInstaller(i + 1));
        if !ok {
          return;
        }
      }
      SoloNext(hashing, before, release, fates, k');
      ok, k' := true, k' + 1;
    }

    method PublishChannels(release: Release, fates: nat -> Fate, ghost before: Store, k: nat)
      returns (ok: bool, k': nat)
      requires Solo(hashing, before, release, fates, k) == (store, AfterInstallers(release))
      modifies this
      ensures Solo(hashing, before, release, fates, k') == (store, if ok then Done else Stopped)
      ensures Smooth(fates) ==> ok
    {
      hide Solo, ChannelsOf;
      var channels, document := ChannelsOf(release), DocumentOf(hashing, release);
      if |channels| == 0 {
        return true, k;
      }
      k' := k;
      for i := 0 to |channels|
        invariant Solo(hashing, before, release, fates, k') == (store, PutChannel(i))
      {
        PutIsVerified(hashing, store, Channel(channels[i]), document, true);
        ok, k' := PutVerified(Channel(channels[i]), document, hashing.size(document.content), true, fates, k',
                              before, release, PutChannel(i), VerifyChannel(i), PutChannel(i + 1));
        if !ok {
          return;
        }
      }
      SoloNext(hashing, before, release, fates, k');
      ok, k' := true, k' + 1;
    }

    /** `main`; `publishable` is the verdict of the checks made before anything is uploaded. */
    method Publish(release: Release, publishable: bool, fates: nat -> Fate) returns (ok: bool, k: nat)
      requires publishable == Publishable(hashing, release)
      modifies this
      ensures Solo(hashing, old(store), release, fates, k) == (store, if ok then Done else Stopped)
      ensures ok ==> Announced(hashing, store, release) && AllStored(hashing, store, release)
      ensures OthersKept(old(store), store, release)
      ensures Smooth(fates) ==> (ok <==> CanPublish(hashing, old(store), release))
    {
      hide Publishable, Announced, AllStored, OthersKept, AssetFree, Free, HasAsset, Smooth;
      SoloNext(hashing, store, release, fates, 0);
      if !publishable {
        SoloTouches(hashing, store, release, fates, 1);
        return false, 1;
      }
      ok, k := PublishAssets(release, fates, store);
      FreeToo(hashing, old(store), store, MetadataKey(release), hashing.size(Document(MetadataOf(release))),
              hashing.sha256(Document(MetadataOf(release))));
      if ok {
        ok, k := PublishMetadata(release, fates, old(store), k);
      }
      if ok && !release.prerelease {
        ok, k := PublishInstallers(release, fates, old(store), k);
      }
      if ok {
        ok, k := PublishChannels(release, fates, old(store), k);
      }
      if ok {
        PublishedReleaseIsAnnounced(hashing, old(store), release, fates, k);
        PublishedReleaseIsStored(hashing, old(store), release, fates, k);
      }
      SoloTouches(hashing, old(store), release, fates, k);
    }
  }

  /** One run begins and takes `k` steps. */
  ghost function Alone(release: Release, fates: nat -> Fate, k: nat): seq<Action>
  {
    if k == 0 then [Begin(release)] else Alone(release, fates, k - 1) + [Advance(0, fates(k - 1))]
  }

  /** Running alone is one of the interleavings. */
  lemma {:induction false} SoloIsAnInterleaving(hashing: Hashing, store: Store, release: Release, fates: nat -> Fate,
                                                k: nat)
    ensures var (after, at) := Solo(hashing, store, release, fates, k);
            Play(hashing, World(store, []), Alone(release, fates, k)) == World(after, [Run(release, at)])
  {
    hide Step;
    var actions := Alone(release, fates, k);
    if k == 0 {
      assert actions[..0] == [];
    } else {
      SoloIsAnInterleaving(hashing, store, release, fates, k - 1);
      assert actions[..|actions| - 1] == Alone(release, fates, k - 1);
    }
  }

  /** So a publication that reports success in a sound store has left the whole release there. */
  lemma PublishedReleaseIsBacked(hashing: Hashing, store: Store, release: Release, fates: nat -> Fate, k: nat)
    requires StoreSound(hashing, store) && Solo(hashing, store, release, fates, k).1 == Done
    ensures StoreSound(hashing, Solo(hashing, store, release, fates, k).0)
    ensures Backed(hashing, Solo(hashing, store, release, fates, k).0, MetadataOf(release))
  {
    hide StoreSound, Solo, Play, Alone, Backed;
    SoloIsAnInterleaving(hashing, store, release, fates, k);
    EveryInterleavingSound(hashing, World(store, []), Alone(release, fates, k));
    var world := Play(hashing, World(store, []), Alone(release, fates, k));
    assert RunSound(hashing, world.store, world.runs[0]);
  }
}
