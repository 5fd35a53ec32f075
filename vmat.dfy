/**
 * `create_vmat_content`: the material text written next to each loading-screen
 * image. It is one fixed template in which only the TextureA path varies.
 */
module Vmat {
  import opened Wrappers
  import opened Text

  /** The template up to and including the opening quote of the TextureA value. */
  const Head: string :=
    "// THIS FILE IS AUTO-GENERATED\n" +
    "\n" +
    "Layer0\n" +
    "{\n" +
    "    shader \"csgo_composite_generic.vfx\"\n" +
    "\n" +
    "    g_flAlphaBlend \"0.000\"\n" +
    "\n" +
    "    //---- Options ----\n" +
    "    TextureA \""

  /** The template from the closing quote of the TextureA value to the end. */
  const Tail: string :=
    "\"\n" +
    "    TextureB \"\"\n" +
    "\n" +
    "\n" +
    "    VariableState\n" +
    "    {\n" +
    "        \"Options\"\n" +
    "        {\n" +
    "        }\n" +
    "    }\n" +
    "}\n"

  /** The TextureA value: the screenshot for `index`, under the 1080p folder. */
  function TexturePath(mapName: string, index: nat): (r: string)
    ensures EndsWith(r, ".png")
  {
    "panorama/images/map_icons/screenshots/1080p/" + mapName + "_" + NatToString(index) + "_png.png"
  }

  /** `create_vmat_content(map_name, index)`. */
  function VmatContent(mapName: string, index: nat): (r: string)
    ensures |Head| + |Tail| < |r| && r[..|Head|] == Head && EndsWith(r, Tail)
  {
    Head + TexturePath(mapName, index) + Tail
  }

  /** Reads the TextureA value back out of a text built from the template, if it is one. */
  function TextureOf(text: string): (r: Option<string>)
    ensures r.Some? ==> text == Head + r.value + Tail
  {
    if |Head| + |Tail| <= |text| && text[..|Head|] == Head && text[|text| - |Tail|..] == Tail then
      var v := text[|Head|..|text| - |Tail|];
      assert text == text[..|Head|] + v + text[|text| - |Tail|..];
      Some(v)
    else
      None
  }

  /** Every generated text is the template, and its TextureA value is the path for its own index. */
  lemma TextureOfVmatContent(mapName: string, index: nat)
    ensures TextureOf(VmatContent(mapName, index)) == Some(TexturePath(mapName, index))
  {
    var p := TexturePath(mapName, index);
    var t := Head + p + Tail;
    assert t[..|Head|] == Head;
    assert t[|t| - |Tail|..] == Tail;
    assert t[|Head|..|t| - |Tail|] == p;
  }

  /** Distinct indices give distinct TextureA paths for the same map. */
  lemma TexturePathInjective(mapName: string, j: nat, k: nat)
    requires TexturePath(mapName, j) == TexturePath(mapName, k)
    ensures j == k
  {
    var pre := "panorama/images/map_icons/screenshots/1080p/" + mapName + "_";
    assert TexturePath(mapName, j) == pre + NatToString(j) + "_png.png";
    assert TexturePath(mapName, k) == pre + NatToString(k) + "_png.png";
    DecimalInfixInjective(pre, j, k, "_png.png");
  }

  /** The texts for two indices of one map differ. */
  lemma VmatContentInjective(mapName: string, j: nat, k: nat)
    requires VmatContent(mapName, j) == VmatContent(mapName, k)
    ensures j == k
  {
    TextureOfVmatContent(mapName, j);
    TextureOfVmatContent(mapName, k);
    TexturePathInjective(mapName, j, k);
  }
}
