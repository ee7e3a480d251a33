/**
 * The input-configuration tags of cars/conf/input_parameters.py: the two product keys and the
 * image and geometric-model tags built from them.
 */
module InputParameters {

  const PRODUCT1_KEY: string := "1"
  const PRODUCT2_KEY: string := "2"
  const IMG_TAG_ROOT: string := "img"
  const MODEL_TAG_ROOT: string := "model"

  /**
   * `create_img_tag_from_product_key`: the image tag root followed by the key. A key other
   * than the two product keys only logs a warning; the tag is built all the same.
   */
  function CreateImgTag(productKey: string): (tag: string)
    ensures |tag| == |IMG_TAG_ROOT| + |productKey|
    ensures tag[..|IMG_TAG_ROOT|] == IMG_TAG_ROOT && tag[|IMG_TAG_ROOT|..] == productKey
  {
    IMG_TAG_ROOT + productKey
  }

  /** `create_model_tag_from_product_key`: the model tag root followed by the key, warning aside. */
  function CreateModelTag(productKey: string): (tag: string)
    ensures |tag| == |MODEL_TAG_ROOT| + |productKey|
    ensures tag[..|MODEL_TAG_ROOT|] == MODEL_TAG_ROOT && tag[|MODEL_TAG_ROOT|..] == productKey
  {
    MODEL_TAG_ROOT + productKey
  }

  /** Whether the key is one the tag functions warn about. */
  predicate WarnsAbout(productKey: string) {
    productKey != PRODUCT1_KEY && productKey != PRODUCT2_KEY
  }

  const IMG1_TAG: string := CreateImgTag(PRODUCT1_KEY)
  const IMG2_TAG: string := CreateImgTag(PRODUCT2_KEY)
  const MODEL1_TAG: string := CreateModelTag(PRODUCT1_KEY)
  const MODEL2_TAG: string := CreateModelTag(PRODUCT2_KEY)

  /** The derived tags spell "img1", "img2", "model1" and "model2", four distinct tags. */
  lemma DerivedTags()
    ensures IMG1_TAG == "img1" && IMG2_TAG == "img2"
    ensures MODEL1_TAG == "model1" && MODEL2_TAG == "model2"
    ensures IMG1_TAG != IMG2_TAG && MODEL1_TAG != MODEL2_TAG && IMG1_TAG != MODEL1_TAG
  {
  }

  /** Different keys give different image tags and different model tags. */
  lemma TagsInjective(k1: string, k2: string)
    ensures CreateImgTag(k1) == CreateImgTag(k2) ==> k1 == k2
    ensures CreateModelTag(k1) == CreateModelTag(k2) ==> k1 == k2
  {
    if CreateImgTag(k1) == CreateImgTag(k2) {
      assert k1 == CreateImgTag(k1)[|IMG_TAG_ROOT|..];
    }
    if CreateModelTag(k1) == CreateModelTag(k2) {
      assert k1 == CreateModelTag(k1)[|MODEL_TAG_ROOT|..];
    }
  }

  /** No image tag is a model tag, whatever the keys. */
  lemma ImgTagIsNoModelTag(k1: string, k2: string)
    ensures CreateImgTag(k1) != CreateModelTag(k2)
  {
    assert CreateImgTag(k1)[0] == 'i';
    assert CreateModelTag(k2)[0] == 'm';
  }
}
