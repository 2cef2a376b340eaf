/** One worker, one asset: what the cache answers is what the pool hears, and what stays published. */
module ExportWorker {
  import opened CacheConditions
  import opened CacheModel
  import opened Decimal
  import opened ExportCache
  import Pool = ExportPool
  import opened Reports

  /** What the decoder reports for this identity carries the heading of the asset. */
  ghost predicate Headed(asset: Pool.Asset, id: string, decode: Decoder) {
    forall i | decode(id, i).Success? ::
      var r := decode(id, i).value.report;
      r.directory == FiveDigits(i) && r.source == asset.path && r.sourceSha256 == asset.sha256
  }

  function Message(e: CacheError): string {
    match e
    case Cancelled => "cancelled"
    case Size => "size"
    case Io => "io"
    case Verification => "verification"
  }

  lemma StemHeads(assets: seq<Pool.Asset>, i: nat, h: Hashes, id: string, decode: Decoder, report: Report)
    requires i < |assets| && Headed(assets[i], id, decode) && Deterministic(h, decode) && Stems(decode, id, i, report)
    ensures Pool.ReportFor(assets, i, report)
  {
    var j :| StemsFrom(decode, id, j, i, report);
    assert decode(id, j).Success? && Describes(h, decode(id, j).value);
  }

  /**
   Processes asset `i` through the cache. The pool hears of an unkept resource exactly when the cache
   gave up after the directory was published, and what it hears tells whether the directory is there.
   */
  method Work(cache: Cache, assets: seq<Pool.Asset>, i: nat, id: string, decode: Decoder, env: Env, storeEnv: Env)
    returns (o: Pool.Outcome, published: bool)
    requires i < |assets| && Headed(assets[i], id, decode)
    requires cache.Indexed() && Injective(cache.hashes) && Deterministic(cache.hashes, decode)
    requires Unforged(cache.hashes, decode, cache.disk)
    modifies cache
    ensures cache.Indexed() && Unforged(cache.hashes, decode, cache.disk)
    ensures Pool.OutcomeFor(assets, i, o)
    ensures o.Answered? <==> old(cache.Serves(id, i, decode, env, storeEnv))
    ensures o.Unkept? <==> old(cache.Abandons(id, i, decode, env, storeEnv))
    ensures published <==> Pool.Publishes(o)
  {
    var r;
    r, published := cache.Process(id, i, decode, env, storeEnv);
    if r.Success? {
      StemHeads(assets, i, cache.hashes, id, decode, r.value.report);
      return Pool.Answered(r.value.report), published;
    }
    o := if published then Pool.Unkept(Message(r.error)) else Pool.Broken(Message(r.error));
  }
}
