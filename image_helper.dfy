/**
 * The asset lookups of `src/utils/productImageHelper.js`: a constant object
 * from keys to imported images, read with `productImages[key] || placeholder`.
 * An imported image is the URL the bundler serves the file under; here it is
 * the text of the imported path. A lookup converts its key to text first, as
 * a property access does.
 */
module ProductImages {
  import opened JsValue

  const FluorImage := Str("../assets/products/fluor.jpg")
  const TransparenteImage := Str("../assets/products/transparente.jpg")

  /** `productImages`. */
  const ProductImageMap: Object := [("fluor", FluorImage), ("transparente", TransparenteImage)]

  /** The image shown for a key that has none. */
  const Placeholder := "https://via.placeholder.com/300x200?text=Imagen+No+Disponible"

  /** `getProductImage(imageKey)`. */
  function GetProductImage(imageKey: Value): Value
  {
    var v := Get(ProductImageMap, StringOf(imageKey));
    if Truthy(v) then v else Str(Placeholder)
  }

  /** `getAvailableImageKeys()`: the map's keys in declaration order. */
  function GetAvailableImageKeys(): (ks: seq<string>)
    ensures ks == ["fluor", "transparente"]
  {
    Keys(ProductImageMap)
  }

  /**
   * A key of the map gives its own image and an unknown key gives the
   * placeholder, so the placeholder appears exactly for keys that are not
   * listed; the answer is never `undefined`, always a non-empty text.
   */
  lemma ImageOrPlaceholder(imageKey: Value)
    ensures StringOf(imageKey) in GetAvailableImageKeys() ==>
      GetProductImage(imageKey) == Get(ProductImageMap, StringOf(imageKey))
    ensures StringOf(imageKey) !in GetAvailableImageKeys() ==> GetProductImage(imageKey) == Str(Placeholder)
    ensures GetProductImage(imageKey) == Str(Placeholder) <==> StringOf(imageKey) !in GetAvailableImageKeys()
    ensures GetProductImage(imageKey).Str? && GetProductImage(imageKey).s != ""
  {
    var k := StringOf(imageKey);
    assert DistinctKeys(ProductImageMap);
    if k == "fluor" {
      assert ProductImageMap[0].0 == k;
    } else if k == "transparente" {
      assert ProductImageMap[1].0 == k;
    }
  }
}
