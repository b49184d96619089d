/**
 * The library's global configuration and its builder: an optional network
 * fetcher, an optional provider of the network cache directory, and whether
 * trace markers are on. At most one cache provider may be set.
 */
module Config {
  import opened Wrappers

  /** An app-supplied fetcher or provider: an opaque identity. */
  type Fetcher = nat

  /**
   * The cache provider the builder installs: one around a fixed directory
   * (`setNetworkCacheDir`), or one around the app's provider
   * (`setNetworkCacheProvider`), whose directory the platform reports.
   */
  datatype CacheProvider = FixedDir(file: string) | AppProvider(provider: nat)

  /** What the platform says: which paths are directories, and which directory each app provider gives. */
  datatype Platform = Platform(directories: set<string>, appDirs: nat -> string)

  /** `getCacheDir` of an installed provider: its file, which must be a directory. */
  function GetCacheDir(p: CacheProvider, env: Platform): (r: Result<string>)
    ensures r.Ok? ==> r.value in env.directories
    ensures r.Err? ==> r.error == IllegalArgument
    ensures p.FixedDir? ==> (r.Ok? <==> p.file in env.directories) && (r.Ok? ==> r.value == p.file)
    ensures p.AppProvider? ==> (r.Ok? <==> env.appDirs(p.provider) in env.directories) && (r.Ok? ==> r.value == env.appDirs(p.provider))
  {
    var file := match p case FixedDir(f) => f case AppProvider(q) => env.appDirs(q);
    if file in env.directories then Ok(file) else Err(IllegalArgument)
  }

  /** A `LottieConfig`: final fields, fixed at build time. */
  datatype LottieConfig = LottieConfig(networkFetcher: Option<Fetcher>, cacheProvider: Option<CacheProvider>, enableSystraceMarkers: bool)

  class Builder {
    var networkFetcher: Option<Fetcher>
    var cacheProvider: Option<CacheProvider>
    var enableSystraceMarkers: bool

    /** No fetcher, no cache provider, trace markers off. */
    constructor ()
      ensures networkFetcher.None? && cacheProvider.None? && !enableSystraceMarkers
    {
      networkFetcher, cacheProvider, enableSystraceMarkers := None, None, false;
    }

    /** `setNetworkFetcher`: replaces any fetcher; returns the builder. */
    method SetNetworkFetcher(fetcher: Fetcher) returns (b: Builder)
      modifies this`networkFetcher
      ensures b == this && networkFetcher == Some(fetcher)
    {
      networkFetcher := Some(fetcher);
      return this;
    }

    /** `setNetworkCacheDir`: fails when a provider is already set, else installs one around the file. */
    method SetNetworkCacheDir(file: string) returns (r: Result<Builder>)
      modifies this`cacheProvider
      ensures old(cacheProvider).Some? ==> r == Err(IllegalState) && cacheProvider == old(cacheProvider)
      ensures old(cacheProvider).None? ==> r == Ok(this) && cacheProvider == Some(FixedDir(file))
    {
      if cacheProvider.Some? {
        return Err(IllegalState);
      }
      cacheProvider := Some(FixedDir(file));
      return Ok(this);
    }

    /** `setNetworkCacheProvider`: fails when a provider is already set, else installs one around the app's. */
    method SetNetworkCacheProvider(provider: nat) returns (r: Result<Builder>)
      modifies this`cacheProvider
      ensures old(cacheProvider).Some? ==> r == Err(IllegalState) && cacheProvider == old(cacheProvider)
      ensures old(cacheProvider).None? ==> r == Ok(this) && cacheProvider == Some(AppProvider(provider))
    {
      if cacheProvider.Some? {
        return Err(IllegalState);
      }
      cacheProvider := Some(AppProvider(provider));
      return Ok(this);
    }

    /** `setEnableSystraceMarkers`; returns the builder. */
    method SetEnableSystraceMarkers(enable: bool) returns (b: Builder)
      modifies this`enableSystraceMarkers
      ensures b == this && enableSystraceMarkers == enable
    {
      enableSystraceMarkers := enable;
      return this;
    }

    /** `build`: a configuration with the builder's three fields. */
    method Build() returns (c: LottieConfig)
      ensures c == LottieConfig(networkFetcher, cacheProvider, enableSystraceMarkers)
    {
      return LottieConfig(networkFetcher, cacheProvider, enableSystraceMarkers);
    }
  }

  /** Whichever setter comes second, a second cache provider is refused and the first one stays. */
  method SecondProviderRefused(file: string, provider: nat) returns (b: Builder)
    ensures b.cacheProvider == Some(FixedDir(file))
  {
    b := new Builder();
    var first := b.SetNetworkCacheDir(file);
    assert first == Ok(b);
    var second := b.SetNetworkCacheProvider(provider);
    assert second == Err(IllegalState);
    var third := b.SetNetworkCacheDir(file + "/other");
    assert third == Err(IllegalState);
  }

  /** Building from a fresh builder gives the defaults; the builder's setters show through. */
  method DefaultsAndSetters(fetcher: Fetcher) returns (defaults: LottieConfig, configured: LottieConfig)
    ensures defaults == LottieConfig(None, None, false)
    ensures configured == LottieConfig(Some(fetcher), None, true)
  {
    var b := new Builder();
    defaults := b.Build();
    var b1 := b.SetNetworkFetcher(fetcher);
    var b2 := b1.SetEnableSystraceMarkers(true);
    configured := b2.Build();
  }
}
