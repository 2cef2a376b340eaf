/** The plan under the rules the source classifies by, and what its paths are good for further on. */
module PlannedPaths {
  import opened Wrappers
  import opened Assets
  import opened Catalog
  import opened Paths
  import Agreement = ExportAgreement
  import Pool = ExportPool
  import Verifier = ExportVerify

  /** Every character but the slash is in one of the pieces. */
  lemma {:induction false} InPiece(s: string, i: nat)
    requires i < |s| && s[i] != '/'
    ensures exists part :: part in Split(s) && s[i] in part
  {
    var rest := Split(s[1..]);
    if i > 0 {
      InPiece(s[1..], i - 1);
      var part :| part in rest && s[i] in part;
      if s[0] == '/' {
        assert Split(s) == [""] + rest;
        assert part in Split(s);
      } else {
        assert Split(s) == [[s[0]] + rest[0]] + rest[1..];
        if part == rest[0] {
          assert s[i] in Split(s)[0];
        } else {
          assert part in rest[1..] && part in Split(s);
        }
      }
    } else {
      assert s[0] in Split(s)[0];
    }
  }

  /** A path that may be planned is one the verifier of an export accepts as a source. */
  lemma SafeForVerifier(path: string)
    ensures SafeRelative(path) ==> Verifier.SafePath(path)
  {
    if SafeRelative(path) {
      forall i | 0 <= i < |path| ensures path[i] == '/' || NameChar(path[i]) {
        if path[i] != '/' {
          InPiece(path, i);
        }
      }
    }
  }

  /** The three spellings of a file below the remote directory. */
  predicate Spells(id: string, remote: string, placeholder: Option<string>, path: string) {
    || id == "{Fwk.Resource.RemoteAssetDir}/" + path
    || id == remote + "/" + path
    || (placeholder.Some? && id == placeholder.value + "/" + path)
  }

  lemma StripsWhole(s: string, prefix: string)
    ensures StripPrefix(s, prefix).Some? ==> s == prefix + StripPrefix(s, prefix).value
  {
  }

  lemma RemoteSpells(id: string, remote: string, placeholder: Option<string>)
    requires RemotePath(id, remote, placeholder).Some?
    ensures Spells(id, remote, placeholder, RemotePath(id, remote, placeholder).value)
  {
    StripsWhole(id, "{Fwk.Resource.RemoteAssetDir}/");
    StripsWhole(id, remote + "/");
    if placeholder.Some? {
      StripsWhole(id, placeholder.value + "/");
    }
  }

  /** What is classified as remote was spelled so, and its provider is the one that is named. */
  lemma RemoteNamed(l: Location, remote: string, placeholder: Option<string>)
    requires Classify(l, remote, placeholder).Success? && Classify(l, remote, placeholder).value.Remote?
    ensures var kind := Classify(l, remote, placeholder).value;
            && RemotePath(l.internalId, remote, placeholder) == Some(kind.path) && SafeRelative(kind.path)
            && ProviderOf(l.providerId) == Some(Some(kind.provider))
  {
  }

  lemma RemoteSpelled(l: Location, remote: string, placeholder: Option<string>)
    requires Classify(l, remote, placeholder).Success? && Classify(l, remote, placeholder).value.Remote?
    ensures var kind := Classify(l, remote, placeholder).value;
            && SafeRelative(kind.path) && Spells(l.internalId, remote, placeholder, kind.path)
            && ProviderOf(l.providerId) == Some(Some(kind.provider))
  {
    RemoteNamed(l, remote, placeholder);
    RemoteSpells(l.internalId, remote, placeholder);
  }

  /**
   Plans a catalog for a remote directory. A planned file is one that a location spells, from the
   provider the location names, and its path is safe for everything that follows.
   */
  method PlanFor(ls: seq<Location>, remote: string, placeholder: Option<string>) returns (r: Result<Plan, PlanError>)
    ensures r.Success? <==> Plannable(ClassifierFor(remote, placeholder), ls)
    ensures r.Success? ==>
              forall p | p in r.value.assets ::
                && SafeRelative(p) && Verifier.SafePath(p)
                && exists l :: l in ls && Spells(l.internalId, remote, placeholder, p) &&
                               ProviderOf(l.providerId) == Some(Some(r.value.assets[p].provider))
  {
    var c := ClassifierFor(remote, placeholder);
    r := PlanWith(c, ls);
    GroupedMeans(c, ls);
    if r.Success? {
      forall p | p in r.value.assets
        ensures SafeRelative(p) && Verifier.SafePath(p)
        ensures exists l :: l in ls && Spells(l.internalId, remote, placeholder, p) &&
                            ProviderOf(l.providerId) == Some(Some(r.value.assets[p].provider))
      {
        var l :| l in ls && IsRemote(c, l) && PathOf(c, l) == p;
        RemoteSpelled(l, remote, placeholder);
        SafeForVerifier(p);
        GroupedProvider(c, ls, l);
      }
    }
  }

  /** What a download of a plan lists is what an export relies on. */
  lemma PlannedIsSound(plan: Plan, assets: seq<Pool.Asset>, e: Agreement.Setting)
    requires forall p | p in plan.assets :: SafeRelative(p)
    requires forall k | 0 <= k < |assets| :: assets[k].path in plan.assets && Verifier.ValidDigest(assets[k].sha256)
    requires forall k, l | 0 <= k < l < |assets| :: assets[k].path != assets[l].path
    requires e.options.kindsValid && (e.options.raw != Verifier.Off ==> e.options.rawValid)
    requires Verifier.ValidDigest(e.catalogSha256) && |assets| <= e.catalogFiles
    ensures Agreement.Sound(e, assets)
  {
    forall k | 0 <= k < |assets| ensures Verifier.SafePath(assets[k].path) {
      SafeForVerifier(assets[k].path);
    }
  }
}
