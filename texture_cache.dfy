/**
 * The texture cache (`textureCache.js`): a map of loaded textures and a map
 * of loads in flight, both keyed by url and by a key derived from the url
 * and the load options. The network is not modelled: a load is started by a
 * request and later finishes with an explicit success or failure event.
 */
module TextureCache {
  import opened Wrappers

  /** three.js's `SRGBColorSpace`. */
  const SrgbColorSpace: string := "srgb"

  /** The options a caller may pass; absent fields are `undefined`. */
  datatype Options = Options(flipY: Option<bool>, colorSpace: Option<string>)

  /** `options = {}`. */
  const NoOptions: Options := Options(None, None)

  // ---------------------------------------------------------------- cache key

  /** `${options.flipY || false}`. */
  function FlipYString(o: Options): (s: string)
    ensures s == "true" <==> o.flipY == Some(true)
    ensures s == "true" || s == "false"
  {
    if o.flipY == Some(true) then "true" else "false"
  }

  /** SRGB and an absent or empty colour space all read "srgb"; any other is kept as written. */
  function ColorSpaceString(o: Options): (s: string)
    ensures o.colorSpace.Some? && o.colorSpace.value != "" ==> s == o.colorSpace.value
    ensures o.colorSpace.None? || o.colorSpace == Some("") ==> s == SrgbColorSpace
  {
    if o.colorSpace == Some(SrgbColorSpace) then SrgbColorSpace
    else if o.colorSpace.Some? && o.colorSpace.value != "" then o.colorSpace.value
    else SrgbColorSpace
  }

  /** `${url}?flipY=${…}&colorSpace=${…}`. */
  function CacheKey(url: string, o: Options): string
  {
    url + "?flipY=" + FlipYString(o) + "&colorSpace=" + ColorSpaceString(o)
  }

  /** The key starts with the url and is strictly longer, so url and key are always two different entries. */
  lemma CacheKeyExtendsUrl(url: string, o: Options)
    ensures |CacheKey(url, o)| > |url|
    ensures CacheKey(url, o)[..|url|] == url
    ensures CacheKey(url, o) != url
  {
    assert CacheKey(url, o) == url + ("?flipY=" + FlipYString(o) + "&colorSpace=" + ColorSpaceString(o));
  }

  /** For one url, two option sets share a key exactly when they agree on the flip flag string and the colour-space string. */
  lemma CacheKeyDeterminesOptions(url: string, o1: Options, o2: Options)
    ensures CacheKey(url, o1) == CacheKey(url, o2)
        <==> FlipYString(o1) == FlipYString(o2) && ColorSpaceString(o1) == ColorSpaceString(o2)
  {
    var p := url + "?flipY=";
    var k1 := CacheKey(url, o1);
    var k2 := CacheKey(url, o2);
    assert k1 == p + (FlipYString(o1) + "&colorSpace=" + ColorSpaceString(o1));
    assert k2 == p + (FlipYString(o2) + "&colorSpace=" + ColorSpaceString(o2));
    if k1 == k2 {
      assert k1[|p|] == k2[|p|];
      assert FlipYString(o1) == FlipYString(o2);
      var q := p + FlipYString(o1) + "&colorSpace=";
      assert k1 == q + ColorSpaceString(o1);
      assert k2 == q + ColorSpaceString(o2);
      assert ColorSpaceString(o1) == k1[|q|..];
      assert ColorSpaceString(o2) == k2[|q|..];
    }
  }

  /**
   * An absent flip flag keys like `false` (although a fresh texture keeps
   * three.js's default `flipY = true`), and an empty colour space keys like
   * SRGB.
   */
  lemma KeyDefaults(url: string, colorSpace: Option<string>, flipY: Option<bool>)
    ensures CacheKey(url, Options(None, colorSpace)) == CacheKey(url, Options(Some(false), colorSpace))
    ensures CacheKey(url, Options(flipY, Some(""))) == CacheKey(url, Options(flipY, Some(SrgbColorSpace)))
    ensures CacheKey(url, Options(flipY, None)) == CacheKey(url, Options(flipY, Some(SrgbColorSpace)))
    ensures CacheKey(url, NoOptions) == url + "?flipY=" + "false" + "&colorSpace=" + "srgb"
  {
  }

  // ---------------------------------------------------------------- state

  /** A loaded texture: the two fields the cache reads and overwrites in place. */
  class Texture {
    var flipY: bool
    var colorSpace: string

    /** What the loader hands back: three.js's defaults, `flipY = true` and no colour space. */
    constructor ()
      ensures flipY && colorSpace == ""
    {
      flipY := true;
      colorSpace := "";
    }
  }

  /** A load in flight: what it was asked for, and the key it was registered under. */
  datatype Load = Load(url: string, key: string, options: Options)

  /** What `loadTexture` hands back: a cached texture, or the promise of a load (an existing one or a new one). */
  datatype Outcome = Hit(texture: Texture) | Joined(load: nat) | Started(load: nat)

  /**
   * The module's two maps (`textureCache`, `loadingPromises`, whose promises
   * are named by load ids) and the loads whose callbacks have not fired yet.
   */
  class Cache {
    var textures: map<string, Texture>
    var loading: map<string, nat>
    var inFlight: map<nat, Load>
    var nextId: nat

    /**
     * Every registered promise belongs to a load still in flight, under that
     * load's url or key, and ids are fresh.
     */
    ghost predicate Valid()
      reads this
    {
      && (forall k :: k in loading ==>
            loading[k] in inFlight && (k == inFlight[loading[k]].url || k == inFlight[loading[k]].key))
      && (forall id :: id in inFlight ==> id < nextId)
      && (forall id :: id in inFlight ==> inFlight[id].key == CacheKey(inFlight[id].url, inFlight[id].options))
    }

    constructor ()
      ensures Valid()
      ensures textures == map[] && loading == map[] && inFlight == map[] && nextId == 0
    {
      textures := map[];
      loading := map[];
      inFlight := map[];
      nextId := 0;
    }

    /**
     * `loadTexture(url, options)`: a hit under the key returns it and changes
     * nothing; a hit under the url alone adopts the given options on that
     * texture, files it under the key as well and returns it; otherwise a load
     * in flight under the key or the url is joined; otherwise a new load is
     * registered under both.
     */
    method Request(url: string, options: Options) returns (r: Outcome)
      requires Valid()
      modifies this, textures.Values
      ensures Valid()
      ensures var key := CacheKey(url, options);
        if key in old(textures) then
          && r == Hit(old(textures)[key])
          && textures == old(textures) && loading == old(loading)
          && inFlight == old(inFlight) && nextId == old(nextId)
          && (forall t :: t in old(textures.Values) ==> unchanged(t))
        else if url in old(textures) then
          && r == Hit(old(textures)[url])
          && textures == old(textures)[key := old(textures)[url]]
          && loading == old(loading) && inFlight == old(inFlight) && nextId == old(nextId)
          && r.texture.flipY == options.flipY.GetOr(old(r.texture.flipY))
          && r.texture.colorSpace == options.colorSpace.GetOr(old(r.texture.colorSpace))
          && (forall t :: t in old(textures.Values) && t != r.texture ==> unchanged(t))
        else if key in old(loading) || url in old(loading) then
          && r == Joined(if key in old(loading) then old(loading)[key] else old(loading)[url])
          && textures == old(textures) && loading == old(loading)
          && inFlight == old(inFlight) && nextId == old(nextId)
          && (forall t :: t in old(textures.Values) ==> unchanged(t))
        else
          && r == Started(old(nextId))
          && textures == old(textures)
          && loading == old(loading)[key := old(nextId)][url := old(nextId)]
          && inFlight == old(inFlight)[old(nextId) := Load(url, key, options)]
          && nextId == old(nextId) + 1
          && (forall t :: t in old(textures.Values) ==> unchanged(t))
    {
      var key := CacheKey(url, options);
      if key in textures {
        return Hit(textures[key]);
      }
      if url in textures {
        var cached := textures[url];
        if options.flipY.Some? && cached.flipY != options.flipY.value {
          cached.flipY := options.flipY.value;
        }
        if options.colorSpace.Some? && cached.colorSpace != options.colorSpace.value {
          cached.colorSpace := options.colorSpace.value;
        }
        textures := textures[key := cached];
        return Hit(cached);
      }
      if key in loading {
        return Joined(loading[key]);
      }
      if url in loading {
        return Joined(loading[url]);
      }
      var id := nextId;
      nextId := nextId + 1;
      inFlight := inFlight[id := Load(url, key, options)];
      CacheKeyExtendsUrl(url, options);
      loading := loading[key := id];
      loading := loading[url := id];
      return Started(id);
    }

    /**
     * The success callback of load `id`: the new texture takes the given flip
     * flag and colour space (SRGB when none is given), is filed under both
     * the key and the url, and both promise entries are dropped.
     */
    method Resolve(id: nat) returns (t: Texture)
      requires Valid() && id in inFlight
      modifies this
      ensures Valid()
      ensures fresh(t)
      ensures var ld := old(inFlight)[id];
        && t.flipY == ld.options.flipY.GetOr(true)
        && t.colorSpace == ld.options.colorSpace.GetOr(SrgbColorSpace)
        && textures == old(textures)[ld.key := t][ld.url := t]
        && loading == old(loading) - {ld.key, ld.url}
        && inFlight == old(inFlight) - {id}
        && nextId == old(nextId)
    {
      var ld := inFlight[id];
      t := new Texture();
      if ld.options.flipY.Some? {
        t.flipY := ld.options.flipY.value;
      }
      if ld.options.colorSpace.Some? {
        t.colorSpace := ld.options.colorSpace.value;
      } else {
        t.colorSpace := SrgbColorSpace;
      }
      textures := textures[ld.key := t][ld.url := t];
      DropLoad(id);
    }

    /** The failure callback of load `id`: both promise entries are dropped and nothing is cached. */
    method Reject(id: nat)
      requires Valid() && id in inFlight
      modifies this
      ensures Valid()
      ensures var ld := old(inFlight)[id];
        && textures == old(textures)
        && loading == old(loading) - {ld.key, ld.url}
        && inFlight == old(inFlight) - {id}
        && nextId == old(nextId)
    {
      DropLoad(id);
    }

    /** What both callbacks do: drop the load's two promise entries and the load itself. */
    method DropLoad(id: nat)
      requires Valid() && id in inFlight
      modifies this`loading, this`inFlight
      ensures Valid()
      ensures loading == old(loading) - {old(inFlight)[id].key, old(inFlight)[id].url}
      ensures inFlight == old(inFlight) - {id}
    {
      var ld := inFlight[id];
      var newLoading := loading - {ld.key, ld.url};
      var newInFlight := inFlight - {id};
      forall k | k in newLoading
        ensures newLoading[k] in newInFlight
      {
        assert loading[k] != id;
      }
      loading := newLoading;
      inFlight := newInFlight;
    }

    /**
     * `preloadTexture`: nothing when the url is cached or already loading,
     * otherwise a request, which can only start a load: the texture map and
     * the textures are left alone, and afterwards the url is pending.
     */
    method Preload(url: string, options: Options)
      requires Valid()
      modifies this, textures.Values
      ensures Valid()
      ensures textures == old(textures)
      ensures forall t :: t in old(textures.Values) ==> unchanged(t)
      ensures old(Pending(url, options)) ==>
        loading == old(loading) && inFlight == old(inFlight) && nextId == old(nextId)
      ensures !old(Pending(url, options)) ==>
        var key := CacheKey(url, options);
        && loading == old(loading)[key := old(nextId)][url := old(nextId)]
        && inFlight == old(inFlight)[old(nextId) := Load(url, key, options)]
        && nextId == old(nextId) + 1
      ensures Pending(url, options)
    {
      if url in textures {
        return;
      }
      if url in loading {
        return;
      }
      var _ := Request(url, options);
    }

    /**
     * A url is pending once a request for it with these options would not
     * start a new load: it is cached or loading under its url or its key.
     */
    predicate Pending(url: string, options: Options)
      reads this
    {
      var key := CacheKey(url, options);
      url in textures || url in loading || key in textures || key in loading
    }

    /**
     * `preloadTextures`: a preload of each url in turn. The texture map is
     * left alone, no promise entry or load is dropped, and afterwards each
     * url is pending.
     */
    method PreloadAll(urls: seq<string>, options: Options)
      requires Valid()
      modifies this, textures.Values
      ensures Valid()
      ensures textures == old(textures)
      ensures forall t :: t in old(textures.Values) ==> unchanged(t)
      ensures old(loading).Keys <= loading.Keys
      ensures forall id :: id in old(inFlight) ==> id in inFlight && inFlight[id] == old(inFlight)[id]
      ensures forall u :: u in urls ==> Pending(u, options)
    {
      var i := 0;
      while i < |urls|
        invariant 0 <= i <= |urls|
        invariant Valid()
        invariant textures == old(textures)
        invariant forall t :: t in old(textures.Values) ==> unchanged(t)
        invariant old(loading).Keys <= loading.Keys
        invariant forall id :: id in old(inFlight) ==> id in inFlight && inFlight[id] == old(inFlight)[id]
        invariant forall j :: 0 <= j < i ==> Pending(urls[j], options)
      {
        Preload(urls[i], options);
        i := i + 1;
      }
    }

    /**
     * `preloadTextureWithFallback`: nothing when either file of the base path
     * is cached, otherwise a preload of the png. The delayed jpg preload is
     * left out.
     */
    method PreloadWithFallback(basePath: string, options: Options)
      requires Valid()
      modifies this, textures.Values
      ensures Valid()
      ensures textures == old(textures)
      ensures forall t :: t in old(textures.Values) ==> unchanged(t)
      ensures basePath + ".png" in old(textures) || basePath + ".jpg" in old(textures) ==>
        loading == old(loading) && inFlight == old(inFlight) && nextId == old(nextId)
      ensures !(basePath + ".png" in old(textures) || basePath + ".jpg" in old(textures)) ==>
        var png := basePath + ".png";
        var key := CacheKey(png, options);
        && Pending(png, options)
        && (old(Pending(png, options)) ==>
              loading == old(loading) && inFlight == old(inFlight) && nextId == old(nextId))
        && (!old(Pending(png, options)) ==>
              && loading == old(loading)[key := old(nextId)][png := old(nextId)]
              && inFlight == old(inFlight)[old(nextId) := Load(png, key, options)]
              && nextId == old(nextId) + 1)
    {
      if basePath + ".png" in textures || basePath + ".jpg" in textures {
        return;
      }
      Preload(basePath + ".png", options);
    }

    /** `clearTextureCache`: both maps are emptied; loads already in flight still call back later. */
    method Clear()
      requires Valid()
      modifies this
      ensures Valid()
      ensures textures == map[] && loading == map[]
      ensures inFlight == old(inFlight) && nextId == old(nextId)
    {
      textures := map[];
      loading := map[];
    }

    /** `getCacheStats`: the sizes of the two maps. */
    method Stats() returns (cached: nat, loadingCount: nat)
      ensures cached == |textures| && loadingCount == |loading|
    {
      cached := |textures|;
      loadingCount := |loading|;
    }
  }

  // ---------------------------------------------------------------- fallback order

  /**
   * `loadTextureWithFallback(basePath)`, given how each `loadTexture` would
   * end (a texture, or None for a rejection): the png, else the jpg, else an
   * error naming the base path.
   */
  function LoadWithFallback<T>(basePath: string, outcome: string -> Option<T>): (r: Result<T, string>)
    ensures r.Ok? <==> outcome(basePath + ".png").Some? || outcome(basePath + ".jpg").Some?
    ensures outcome(basePath + ".png").Some? ==> r == Ok(outcome(basePath + ".png").value)
  {
    match outcome(basePath + ".png")
    case Some(t) => Ok(t)
    case None =>
      match outcome(basePath + ".jpg")
      case Some(t) => Ok(t)
      case None => Err("Failed to load texture: " + basePath)
  }

  /** The urls `loadTextureWithFallback` asks for, in order: the jpg only after the png failed. */
  function FallbackAttempts<T>(basePath: string, outcome: string -> Option<T>): (urls: seq<string>)
    ensures 1 <= |urls| <= 2 && urls[0] == basePath + ".png"
    ensures |urls| == 2 <==> outcome(basePath + ".png").None?
    ensures |urls| == 2 ==> urls[1] == basePath + ".jpg"
  {
    if outcome(basePath + ".png").Some? then [basePath + ".png"] else [basePath + ".png", basePath + ".jpg"]
  }

  /**
   * The fallback succeeds exactly when one of its attempts does, with the
   * texture of the first that does, and fails only after both were tried.
   */
  lemma FallbackOrder<T>(basePath: string, outcome: string -> Option<T>)
    ensures var r := LoadWithFallback(basePath, outcome);
      var urls := FallbackAttempts(basePath, outcome);
      && (r.Ok? <==> outcome(urls[|urls| - 1]).Some?)
      && (r.Ok? ==> r.value == outcome(urls[|urls| - 1]).value)
      && (forall i :: 0 <= i < |urls| - 1 ==> outcome(urls[i]).None?)
      && (r.Err? ==> |urls| == 2 && r.error == "Failed to load texture: " + basePath)
  {
  }
}
