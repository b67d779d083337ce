/**
 * The logo lookup of `src/utils/logoHelper.js`: a constant object with one
 * imported logo, read with a default key and `logos[key] || logos.main`.
 */
module Logos {
  import opened JsValue

  const MainLogo := Str("../assets/logo/LOGO.jpeg")

  /** `logos`. */
  const LogoMap: Object := [("main", MainLogo)]

  /** The key `getLogo` uses when called without one. */
  const DefaultKey := "main"

  /** `getLogo(logoKey = 'main')`; an omitted argument is `undefined`, which the default replaces. */
  function GetLogo(logoKey: Value): Value
  {
    var key := if logoKey.Undefined? then Str(DefaultKey) else logoKey;
    var v := Get(LogoMap, StringOf(key));
    if Truthy(v) then v else Get(LogoMap, DefaultKey)
  }

  /** `getAvailableLogoKeys()`. */
  function GetAvailableLogoKeys(): (ks: seq<string>)
    ensures ks == ["main"]
  {
    Keys(LogoMap)
  }

  /**
   * Called without a key, `getLogo` reads `main`; a listed key gives its own
   * logo and any other key falls back to `logos.main`.
   */
  lemma LogoLookup(logoKey: Value)
    ensures GetLogo(Undefined) == Get(LogoMap, DefaultKey)
    ensures logoKey != Undefined && StringOf(logoKey) in GetAvailableLogoKeys() ==>
      GetLogo(logoKey) == Get(LogoMap, StringOf(logoKey))
    ensures logoKey != Undefined && StringOf(logoKey) !in GetAvailableLogoKeys() ==>
      GetLogo(logoKey) == Get(LogoMap, DefaultKey)
  {
    assert LogoMap[0].0 == DefaultKey;
    assert DistinctKeys(LogoMap);
  }

  /** With one logo in the map, every call answers the main logo, whatever the key. */
  lemma OnlyMainLogo(logoKey: Value)
    ensures GetLogo(logoKey) == MainLogo
  {
    LogoLookup(logoKey);
    assert LogoMap[0].0 == DefaultKey;
    assert DistinctKeys(LogoMap);
  }
}
