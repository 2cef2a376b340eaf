/** Planning a catalog into a file tree: every location is embedded, logical, or part of one asset. */
module Assets {
  import opened Wrappers
  import opened MapTotals
  import opened Paths
  import opened Seqs
  import opened Catalog

  datatype Provider = EncryptedBundle | UnityBundle | Cri

  datatype Asset = Asset(path: string, provider: Provider, locations: seq<nat>)

  datatype PlanError = WrongProvider | WrongPath

  datatype Kind = Logical | Embedded | Remote(path: string, provider: Provider)

  datatype Plan = Plan(assets: map<string, Asset>, embedded: nat, logical: nat)

  // ---- One location ----------------------------------------------------------------------------

  predicate NameChar(c: char) {
    '0' <= c <= '9' || 'a' <= c <= 'z' || 'A' <= c <= 'Z' || c == '.' || c == '_' || c == '-' || c == '(' || c == ')'
  }

  predicate SafeRelative(path: string) {
    && Size(path) <= 2048 && path != ""
    && forall part | part in Split(path) :: SafePart(part) && Size(part) <= 255 && forall c | c in part :: NameChar(c)
  }

  function StripPrefix(s: string, prefix: string): Option<string> {
    if prefix <= s then Some(s[|prefix|..]) else None
  }

  function ProviderOf(id: string): Option<Option<Provider>> {
    if id == "Fwk.Crypt.AssetBundleCryptProvider" then Some(Some(EncryptedBundle))
    else if id == "UnityEngine.ResourceManagement.ResourceProviders.AssetBundleProvider" then Some(Some(UnityBundle))
    else if id == "CriWare.Assets.CriResourceProvider" then Some(Some(Cri))
    else if id == "UnityEngine.ResourceManagement.ResourceProviders.BundledAssetProvider" then Some(None)
    else None
  }

  /** The path below the remote directory, under any of its three spellings. */
  function RemotePath(id: string, remote: string, placeholder: Option<string>): Option<string> {
    match StripPrefix(id, "{Fwk.Resource.RemoteAssetDir}/")
    case Some(path) => Some(path)
    case None =>
      match StripPrefix(id, remote + "/")
      case Some(path) => Some(path)
      case None => if placeholder.Some? then StripPrefix(id, placeholder.value + "/") else None
  }

  function Classify(l: Location, remote: string, placeholder: Option<string>): Result<Kind, PlanError> {
    match ProviderOf(l.providerId)
    case None => Failure(WrongProvider)
    case Some(None) => Success(Logical)
    case Some(Some(provider)) =>
      match RemotePath(l.internalId, remote, placeholder)
      case Some(path) => if SafeRelative(path) then Success(Remote(path, provider)) else Failure(WrongPath)
      case None =>
        match StripPrefix(l.internalId, "{UnityEngine.AddressableAssets.Addressables.RuntimePath}/")
        case Some(path) => if SafeRelative(path) then Success(Embedded) else Failure(WrongPath)
        case None => Failure(WrongPath)
  }

  type Classifier = Location -> Result<Kind, PlanError>

  function ClassifierFor(remote: string, placeholder: Option<string>): Classifier {
    (l: Location) => Classify(l, remote, placeholder)
  }

  // ---- The plan --------------------------------------------------------------------------------

  predicate IsRemote(c: Classifier, l: Location) {
    c(l).Success? && c(l).value.Remote?
  }

  function PathOf(c: Classifier, l: Location): string
    requires IsRemote(c, l)
  {
    c(l).value.path
  }

  function IsEmbedded(c: Classifier): Location -> bool {
    (l: Location) => c(l) == Success(Embedded)
  }

  function IsLogical(c: Classifier): Location -> bool {
    (l: Location) => c(l) == Success(Logical)
  }

  function IsAt(c: Classifier, path: string): Location -> bool {
    (l: Location) => IsRemote(c, l) && PathOf(c, l) == path
  }

  /** One more location at a path: it joins the asset there, or starts one. */
  function Join(assets: map<string, Asset>, path: string, provider: Provider, id: nat): map<string, Asset> {
    if path in assets then assets[path := assets[path].(locations := assets[path].locations + [id])]
    else assets[path := Asset(path, provider, [id])]
  }

  function Grouped(c: Classifier, ls: seq<Location>): map<string, Asset> {
    if ls == [] then map[]
    else
      var l := ls[|ls| - 1];
      var before := Grouped(c, ls[..|ls| - 1]);
      if IsRemote(c, l) then Join(before, c(l).value.path, c(l).value.provider, l.id) else before
  }

  /** Locations of one path come from one provider. */
  ghost predicate Agree(c: Classifier, ls: seq<Location>) {
    forall l, m | l in ls && m in ls && IsRemote(c, l) && IsRemote(c, m) && PathOf(c, l) == PathOf(c, m) ::
      c(l).value.provider == c(m).value.provider
  }

  ghost predicate AllClassified(c: Classifier, ls: seq<Location>) {
    forall l | l in ls :: c(l).Success?
  }

  function LowerChar(c: char): char {
    if 'A' <= c <= 'Z' then c - 'A' + 'a' else c
  }

  function Lower(s: string): (r: string)
    ensures |r| == |s|
  {
    seq(|s|, i requires 0 <= i < |s| => LowerChar(s[i]))
  }

  /** `a` names a directory that `b` lies in. */
  predicate Above(a: string, b: string) {
    |a| < |b| && b[|a|] == '/' && b[..|a|] == a
  }

  /** No two paths are equal up to case, and none is a directory of another up to case. */
  ghost predicate TreeLike(paths: set<string>) {
    && (forall p, q | p in paths && q in paths && Lower(p) == Lower(q) :: p == q)
    && (forall p, q | p in paths && q in paths :: !Above(Lower(p), Lower(q)))
  }

  ghost function RemotePaths(c: Classifier, ls: seq<Location>): set<string> {
    set l | l in ls && IsRemote(c, l) :: PathOf(c, l)
  }

  /** Exactly when a catalog can be planned. */
  ghost predicate Plannable(c: Classifier, ls: seq<Location>) {
    AllClassified(c, ls) && Agree(c, ls) && TreeLike(RemotePaths(c, ls))
  }

  lemma {:induction false} GroupedMeans(c: Classifier, ls: seq<Location>)
    ensures Grouped(c, ls).Keys == RemotePaths(c, ls)
    ensures forall p | p in Grouped(c, ls) ::
              && Grouped(c, ls)[p].path == p
              && Grouped(c, ls)[p].locations == AllIds(Filter(ls, IsAt(c, p)))
  {
    if ls != [] {
      var init, l := ls[..|ls| - 1], ls[|ls| - 1];
      assert ls == init + [l];
      GroupedMeans(c, init);
      forall p | p in Grouped(c, ls)
        ensures Grouped(c, ls)[p].path == p && Grouped(c, ls)[p].locations == AllIds(Filter(ls, IsAt(c, p)))
      {
        if p !in Grouped(c, init) {
          NoneAt(c, init, p);
        }
      }
    }
  }

  lemma NoneAt(c: Classifier, ls: seq<Location>, p: string)
    requires p !in RemotePaths(c, ls)
    ensures Filter(ls, IsAt(c, p)) == []
  {
    FilterAll(ls, IsAt(c, p));
  }

  /** The provider of an asset is that of every location it lists. */
  lemma {:induction false} GroupedProvider(c: Classifier, ls: seq<Location>, l: Location)
    requires Agree(c, ls) && l in ls && IsRemote(c, l)
    ensures PathOf(c, l) in Grouped(c, ls) && Grouped(c, ls)[PathOf(c, l)].provider == c(l).value.provider
  {
    var init, last := ls[..|ls| - 1], ls[|ls| - 1];
    assert ls == init + [last];
    GroupedMeans(c, init);
    if l in init {
      GroupedProvider(c, init, l);
    } else if PathOf(c, l) in Grouped(c, init) {
      var m :| m in init && IsRemote(c, m) && PathOf(c, m) == PathOf(c, l);
      GroupedProvider(c, init, m);
    }
  }

  function Counts(assets: map<string, Asset>): map<string, nat> {
    map p | p in assets :: |assets[p].locations|
  }

  /** Every location is counted exactly once. */
  lemma {:induction false} Conserved(c: Classifier, ls: seq<Location>)
    requires AllClassified(c, ls)
    ensures Count(ls, IsEmbedded(c)) + Count(ls, IsLogical(c)) + Total(Counts(Grouped(c, ls))) == |ls|
  {
    if ls == [] {
      assert Counts(Grouped(c, ls)) == map[];
    } else {
      var init, l := ls[..|ls| - 1], ls[|ls| - 1];
      Conserved(c, init);
      assert c(l).Success?;
      if IsRemote(c, l) {
        JoinCounts(Grouped(c, init), c(l).value.path, c(l).value.provider, l.id);
      }
    }
  }

  lemma JoinCounts(assets: map<string, Asset>, path: string, provider: Provider, id: nat)
    ensures Total(Counts(Join(assets, path, provider, id))) == Total(Counts(assets)) + 1
  {
    var before, after := Counts(assets), Counts(Join(assets, path, provider, id));
    var n := if path in assets then |assets[path].locations| + 1 else 1;
    assert after == before[path := n];
    TotalAdd(before, path, n);
    if path in assets {
      TotalRemove(before, path);
    }
  }

  // ---- The planning loop -----------------------------------------------------------------------

  ghost function Folded(paths: set<string>): set<string> {
    set p | p in paths :: Lower(p)
  }

  lemma {:induction false} FoldedCount(paths: set<string>)
    ensures |Folded(paths)| <= |paths|
    ensures |Folded(paths)| == |paths| <==> forall p, q | p in paths && q in paths && Lower(p) == Lower(q) :: p == q
    decreases |paths|
  {
    if p :| p in paths {
      var rest := paths - {p};
      FoldedCount(rest);
      assert Folded(paths) == Folded(rest) + {Lower(p)};
      if Lower(p) in Folded(rest) {
        var q :| q in rest && Lower(q) == Lower(p);
        assert Folded(paths) == Folded(rest);
      } else {
        assert forall q | q in rest :: Lower(q) in Folded(rest);
      }
    }
  }

  /** The folded keys, as the code collects them. */
  method Fold(assets: map<string, Asset>) returns (folded: set<string>)
    ensures folded == Folded(assets.Keys)
  {
    folded := {};
    var rest := assets.Keys;
    while rest != {}
      invariant rest <= assets.Keys && folded == Folded(assets.Keys - rest)
      decreases |rest|
    {
      var p :| p in rest;
      folded := folded + {Lower(p)};
      assert assets.Keys - (rest - {p}) == (assets.Keys - rest) + {p};
      rest := rest - {p};
    }
    assert assets.Keys - rest == assets.Keys;
  }

  /** Whether some directory of `path` is itself in `paths`. */
  method HasFileAbove(path: string, paths: set<string>) returns (found: bool)
    ensures found <==> exists a | a in paths :: Above(a, path)
  {
    for i := 0 to |path|
      invariant forall a | a in paths && |a| < i :: !Above(a, path)
    {
      if path[i] == '/' && path[..i] in paths {
        assert Above(path[..i], path);
        return true;
      }
    }
    found := false;
  }

  method NoFileAbove(folded: set<string>) returns (ok: bool)
    ensures ok <==> forall a, b | a in folded && b in folded :: !Above(a, b)
  {
    var rest := folded;
    while rest != {}
      invariant rest <= folded
      invariant forall a, b | a in folded && b in folded - rest :: !Above(a, b)
      decreases |rest|
    {
      var path :| path in rest;
      var found := HasFileAbove(path, folded);
      if found {
        return false;
      }
      rest := rest - {path};
    }
    ok := true;
  }

  /** The case-insensitive checks on the planned paths. */
  method CheckTree(assets: map<string, Asset>) returns (ok: bool)
    ensures ok <==> TreeLike(assets.Keys)
  {
    var folded := Fold(assets);
    FoldedCount(assets.Keys);
    if |folded| != |assets.Keys| {
      return false;
    }
    ok := NoFileAbove(folded);
    assert forall p | p in assets.Keys :: Lower(p) in folded;
  }

  lemma GroupMore(c: Classifier, ls: seq<Location>, i: nat)
    requires i < |ls|
    ensures var l := ls[i];
            && Grouped(c, ls[..i + 1]) ==
               (if IsRemote(c, l) then Join(Grouped(c, ls[..i]), c(l).value.path, c(l).value.provider, l.id)
                   else Grouped(c, ls[..i]))
            && Count(ls[..i + 1], IsEmbedded(c)) ==
                Count(ls[..i], IsEmbedded(c)) + (if c(l) == Success(Embedded) then 1 else 0)
            && Count(ls[..i + 1], IsLogical(c)) ==
                Count(ls[..i], IsLogical(c)) + (if c(l) == Success(Logical) then 1 else 0)
  {
    assert ls[..i + 1][..i] == ls[..i];
  }

  /** One location more agrees with the rest exactly when it fits the asset at its path. */
  lemma AgreeMore(c: Classifier, ls: seq<Location>, i: nat)
    requires i < |ls| && Agree(c, ls[..i])
    ensures var l, g := ls[i], Grouped(c, ls[..i]);
            Agree(c, ls[..i + 1]) <==>
            (IsRemote(c, l) && PathOf(c, l) in g ==> g[PathOf(c, l)].provider == c(l).value.provider)
  {
    var done, l := ls[..i], ls[i];
    assert ls[..i + 1] == done + [l];
    GroupedMeans(c, done);
    if IsRemote(c, l) && PathOf(c, l) in Grouped(c, done) {
      var m :| m in done && IsRemote(c, m) && PathOf(c, m) == PathOf(c, l);
      GroupedProvider(c, done, m);
      assert m in ls[..i + 1] && l in ls[..i + 1];
      forall n | n in done && IsRemote(c, n) && PathOf(c, n) == PathOf(c, l)
        ensures c(n).value.provider == Grouped(c, done)[PathOf(c, l)].provider
      {
        GroupedProvider(c, done, n);
      }
    } else {
      assert forall n | n in done && IsRemote(c, n) :: PathOf(c, n) in RemotePaths(c, done);
    }
  }

  /** Plans the locations in order; it fails exactly when they are not plannable. */
  method PlanWith(c: Classifier, ls: seq<Location>) returns (r: Result<Plan, PlanError>)
    ensures r.Success? <==> Plannable(c, ls)
    ensures r.Success? ==> r.value == Plan(Grouped(c, ls), Count(ls, IsEmbedded(c)), Count(ls, IsLogical(c)))
  {
    var plan := Plan(map[], 0, 0);
    for i := 0 to |ls|
      invariant AllClassified(c, ls[..i]) && Agree(c, ls[..i])
      invariant plan == Plan(Grouped(c, ls[..i]), Count(ls[..i], IsEmbedded(c)), Count(ls[..i], IsLogical(c)))
    {
      var l := ls[i];
      GroupMore(c, ls, i);
      AgreeMore(c, ls, i);
      assert l in ls && forall m | m in ls[..i + 1] :: m in ls;
      var kind := c(l);
      if kind.Failure? {
        return Failure(kind.error);
      }
      match kind.value {
        case Logical => plan := plan.(logical := plan.logical + 1);
        case Embedded => plan := plan.(embedded := plan.embedded + 1);
        case Remote(path, provider) =>
          if path in plan.assets && plan.assets[path].provider != provider {
            return Failure(WrongProvider);
          }
          plan := plan.(assets := Join(plan.assets, path, provider, l.id));
      }
    }
    assert ls[..|ls|] == ls;
    GroupedMeans(c, ls);
    var ok := CheckTree(plan.assets);
    return if ok then Success(plan) else Failure(WrongPath);
  }

  // ---- Selections of a planned catalog ---------------------------------------------------------

  /** If the whole catalog plans, every part of it does, to a part of the files, from the same providers. */
  lemma PlansShrink(c: Classifier, all: seq<Location>, part: seq<Location>)
    requires Plannable(c, all) && forall l | l in part :: l in all
    ensures Plannable(c, part)
    ensures forall p | p in Grouped(c, part) ::
              p in Grouped(c, all) && Grouped(c, part)[p].provider == Grouped(c, all)[p].provider
  {
    assert RemotePaths(c, part) <= RemotePaths(c, all);
    GroupedMeans(c, part);
    GroupedMeans(c, all);
    forall p | p in Grouped(c, part)
      ensures p in Grouped(c, all) && Grouped(c, part)[p].provider == Grouped(c, all)[p].provider
    {
      var l :| l in part && IsRemote(c, l) && PathOf(c, l) == p;
      GroupedProvider(c, part, l);
      GroupedProvider(c, all, l);
    }
  }

  /** What the verifier of a download relies on: the selection it recomputes always plans, within the full plan. */
  lemma SelectionPlans(c: Classifier, g: Graph, sel: Selection, kept: seq<Location>)
    requires Plannable(c, g.locations) && Selected(g, sel, kept)
    ensures Plannable(c, kept)
    ensures Grouped(c, kept).Keys <= Grouped(c, g.locations).Keys
  {
    var ids :| kept == Filter(g.locations, IsSelected(ids));
    FilterMembers(g.locations, IsSelected(ids));
    PlansShrink(c, g.locations, kept);
  }

  // ---- The receipt -----------------------------------------------------------------------------

  /** Each receipt line removes the planned asset with its path and provider. */
  method MatchReceipt(assets: map<string, Asset>, receipt: seq<(string, Provider)>) returns (ok: bool)
    ensures ok <==> |receipt| == |assets| && DistinctLines(receipt)
                    && forall i | 0 <= i < |receipt| ::
                        receipt[i].0 in assets && assets[receipt[i].0].provider == receipt[i].1
  {
    if |receipt| != |assets| {
      return false;
    }
    var expected := assets;
    for i := 0 to |receipt|
      invariant forall j | 0 <= j < i :: receipt[j].0 in assets && assets[receipt[j].0].provider == receipt[j].1
      invariant DistinctLines(receipt[..i])
      invariant expected == assets - Listed(receipt[..i])
    {
      var (path, provider) := receipt[i];
      ListedMore(receipt, i);
      if path !in expected || expected[path].provider != provider {
        return false;
      }
      expected := expected - {path};
    }
    assert receipt[..|receipt|] == receipt;
    ok := true;
  }

  ghost predicate DistinctLines(receipt: seq<(string, Provider)>) {
    forall i, j | 0 <= i < j < |receipt| :: receipt[i].0 != receipt[j].0
  }

  ghost function Listed(receipt: seq<(string, Provider)>): set<string> {
    set i | 0 <= i < |receipt| :: receipt[i].0
  }

  lemma ListedMore(receipt: seq<(string, Provider)>, i: nat)
    requires i < |receipt|
    ensures Listed(receipt[..i + 1]) == Listed(receipt[..i]) + {receipt[i].0}
    ensures DistinctLines(receipt[..i + 1]) <==> DistinctLines(receipt[..i]) && receipt[i].0 !in Listed(receipt[..i])
    ensures DistinctLines(receipt) ==> DistinctLines(receipt[..i + 1])
  {
    var done, more := receipt[..i], receipt[..i + 1];
    assert more == done + [receipt[i]];
    assert forall j | 0 <= j < i :: done[j] == more[j] == receipt[j];
  }

  /** A matching receipt lists every planned asset: counting lines is enough to exclude a missing one. */
  lemma {:induction false} ReceiptComplete(assets: map<string, Asset>, receipt: seq<(string, Provider)>)
    requires |receipt| == |assets| && DistinctLines(receipt)
    requires forall i | 0 <= i < |receipt| :: receipt[i].0 in assets
    ensures Listed(receipt) == assets.Keys
  {
    ListedCount(receipt);
    assert assets.Keys == Listed(receipt) + (assets.Keys - Listed(receipt));
    assert |assets.Keys| == |assets|;
  }

  lemma {:induction false} ListedCount(receipt: seq<(string, Provider)>)
    requires DistinctLines(receipt)
    ensures |Listed(receipt)| == |receipt|
  {
    if receipt != [] {
      var n := |receipt| - 1;
      ListedMore(receipt, n);
      assert receipt[..n + 1] == receipt;
      ListedCount(receipt[..n]);
    }
  }
}
