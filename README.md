# Map file preparation for a CS2 loading screen

`creator.py` is an interactive script run inside a folder that holds a map's
loading-screen images, an icon and a description. It asks for the map name and
then:

- creates three folders;
- converts every image to a 1920x1080 PNG named `{map}_{n}_png.png`;
- writes a `{map}_{n}_png.vmat` material beside each PNG that points at it;
- copies the first `.svg` it finds to `map_icon_{map}.svg`;
- moves the first suitable `.txt` to `maps/{map}.txt`, or creates that file empty.

This project models that run as a deterministic planner. The inputs are:

- the directory listing;
- the map name;
- the script's own base name;
- the set of listed names whose image conversion raises.

The output is an `Outcome`. It is either `NothingPlanned` (the map name was
empty) or a `MapPlan` holding four things:

- the folders to create;
- one `ImageJob` per selected image, with its 1-based index, its PNG and .vmat destinations, the .vmat text and whether the conversion succeeded;
- the optional icon copy;
- exactly one description step (move an existing file or create an empty one).

Modules:

- `Text` (`text.dfy`): Python's `str.lower`, `str.endswith` and `str(int)`. It also holds a parser that reads decimal numbers back.
- `Ordering` (`ordering.dfy`): Python's ordering of strings and `sorted`.
- `Listing` (`listing.dfy`): the list comprehension filter and the first-match search.
- `Vmat` (`vmat.dfy`): the `.vmat` template and a reader for its TextureA value.
- `Creator` (`creator.dfy`): the plan, the script's two loops as methods, and the properties of the plan.
- `Wrappers` (`wrappers.dfy`): `Option`.

## Model

| member | source | states |
|---|---|---|
| Text.Lower | creator.py:61 | `lower()` keeps the length and leaves no upper-case letter `A`-`Z` |
| Text.EndsWith | creator.py:61 | `endswith`: the last `len(suffix)` characters of the name are the suffix |
| Text.NatToString | creator.py:64 | the number in `{i}` is rendered as a non-empty run of decimal digits with no leading zero |
| Text.ParseNatToString | creator.py:64 | reading the rendered digits back as a decimal number gives the index again |
| Text.NatToStringInjective | creator.py:63-64 | distinct indices are rendered as distinct strings |
| Text.DecimalInfixInjective | creator.py:64 | two equal names built from one prefix and suffix around a rendered number carry the same number |
| Text.LowerKeepsLowerSuffix | creator.py:87 | a name that ends in a lower-case suffix still ends in it after `lower()` |
| Ordering.LessEqTotal | creator.py:61 | any two names are comparable under Python's string order |
| Ordering.LessEqAntisymmetric | creator.py:61 | two names that are each at most the other are equal |
| Ordering.LessEqTransitive | creator.py:61 | Python's string order is transitive |
| Ordering.Insert | creator.py:61 | inserting into a sorted list keeps it sorted and adds exactly the one element |
| Ordering.Sort | creator.py:61 | `sorted` returns a sorted permutation of its input |
| Ordering.SortedUnique | creator.py:61 | two sorted permutations of one list are equal, so any correct sort gives the modelled result |
| Listing.Keep | creator.py:103 | the comprehension keeps exactly the listed names that pass the test |
| Listing.KeepCounts | creator.py:61 | the comprehension keeps each passing name as often as it is listed, and drops the rest |
| Listing.FirstMatch | creator.py:85-90 | the first entry that passes the test, if any; a found entry is listed and passes the test, and nothing found means no listed entry passes |
| Listing.FirstMatchSpec | creator.py:85-90 | the search finds nothing iff no entry matches; otherwise it finds the entry at the smallest matching position |
| Listing.FirstMatchIsHeadOfKeep | creator.py:103-106 | `txt_files[0]` picks the same entry as a search that stops at the first match |
| Vmat.TexturePath | creator.py:19 | the TextureA value `panorama/images/map_icons/screenshots/1080p/{map}_{i}_png.png`, which names a `.png` |
| Vmat.VmatContent | creator.py:6-31 | `create_vmat_content(map, i)`: the text starts with the fixed header up to `TextureA "` and ends with the fixed tail from the closing quote |
| Vmat.TextureOf | creator.py:6-31 | a text the reader accepts is the fixed template around the value it returns |
| Vmat.TextureOfVmatContent | creator.py:6-31 | every generated text is the template; its only varying part is the TextureA path for its own index |
| Vmat.TexturePathInjective | creator.py:19 | for one map, distinct indices give distinct TextureA paths |
| Vmat.VmatContentInjective | creator.py:6-31 | for one map, distinct indices give distinct .vmat texts |
| Creator.ScreenshotName | creator.py:64 | the PNG name `{map}_{i}_png.png`, ending in `.png` |
| Creator.VmatName | creator.py:76 | the material name `{map}_{i}_png.vmat`, ending in `.vmat` |
| Creator.IconName | creator.py:93 | the icon name `map_icon_{map}.svg`, which itself passes the icon test |
| Creator.DescriptionName | creator.py:99 | the description name `{map}.txt`, ending in `.txt` |
| Creator.IsImageName | creator.py:60-61 | the lower-cased name ends in `.jpg`, `.jpeg`, `.png`, `.tga` or `.bmp` |
| Creator.IsIconName | creator.py:87 | the name as listed, not lower-cased, ends in `.svg` |
| Creator.IsDescriptionSource | creator.py:103 | the lower-cased name ends in `.txt` and is not `readme.txt`, and the name is not the script's own name |
| Creator.SelectImages | creator.py:61 | the sorted list of the listed image names: it is sorted, and holds a name iff that name is listed and passes the image test |
| Creator.DescriptionStepFor | creator.py:99-112 | the target is `maps/{map}.txt`; a moved file is listed and passes the description test; the file is created empty iff no listed name passes that test |
| Creator.Plan | creator.py:33-112 | one run: nothing iff the map name is empty; otherwise the three folders, one image job per listed image name, the icon copy and the description step |
| Creator.ProcessImages | creator.py:63-82 | the image loop produces one job per image, in order, numbered from 1, with its .vmat |
| Creator.FindIcon | creator.py:85-90 | the loop with `found_icon` and `break` returns the first entry ending in `.svg`, or nothing |
| Creator.CreateMapFiles | creator.py:33-112 | the whole run returns the plan described by the lemmas below |
| Creator.NothingPlannedIffEmptyName | creator.py:39-42 | nothing is planned exactly when the map name is empty |
| Creator.ImageJobsFollowImages | creator.py:63 | the k-th job is for the k-th selected image and carries index k+1 |
| Creator.PlanImagesSortedAndNumbered | creator.py:60-63 | the images processed are the listed image names in sorted order, each as often as listed, numbered 1..N with no gap |
| Creator.ScreenshotNameInjective | creator.py:64 | `{map}_{i}_png.png` names differ for different indices |
| Creator.VmatNameInjective | creator.py:76 | `{map}_{i}_png.vmat` names differ for different indices |
| Creator.ScreenshotNameIsNotVmatName | creator.py:64-76 | no PNG name equals a .vmat name |
| Creator.ImageJobsNamesPairwiseDistinct | creator.py:63-77 | two jobs never share a PNG name, nor a .vmat name |
| Creator.ImageJobsImagesAreNotVmats | creator.py:63-77 | no job's PNG has the name of any job's .vmat |
| Creator.ImageJobsDestinationsDistinct | creator.py:63-77 | no two files written into the 1080p folder share a name |
| Creator.TexturePathIsScreenshotPath | creator.py:47-64 | the TextureA path of line 19 is the index's PNG name under the 1080p folder |
| Creator.ImageJobsVmatReferencesOwnImage | creator.py:63-78 | each job's .vmat points through TextureA at the PNG planned for the same index |
| Creator.ImageJobsRegardlessOfConversion | creator.py:67-82 | a conversion error changes only that job's `converted` flag; its names and .vmat stay |
| Creator.PlanVmatsRegardlessOfConversion | creator.py:67-82 | which conversions fail changes nothing in the plan except the `converted` flags |
| Creator.PlanIcon | creator.py:84-96 | the icon is the first listed entry ending in `.svg` (case-sensitive), copied to `map_icon_{map}.svg`; none when there is no such entry |
| Creator.PlanDescription | creator.py:98-112 | the first listed `.txt` that is not `readme.txt` and not the script is moved to `maps/{map}.txt`; if there is none, that file is created empty |
| Creator.FiltersDisjoint | creator.py:60-103 | no name passes two of the image, icon and description filters |
| Creator.PlanSourcesPassFilters | creator.py:61-103 | each source used by the plan passes its step's filter |
| Creator.PlanSourcesDisjoint | creator.py:57-107 | no listed file is used by two steps: converted, copied as icon, or moved as description |
| Creator.ImageFilterIgnoresCase | creator.py:60-61 | `SHOT.PNG` and `shot.Jpeg` are images |
| Creator.IconFilterKeepsCase | creator.py:87 | `icon.svg` is an icon and `ICON.SVG` is not |
| Creator.DescriptionFilterCases | creator.py:103 | `Notes.TXT` qualifies and `ReadMe.Txt` does not; the script-name test is case-sensitive |

## Left out

- Image conversion (`Image.open`, the LANCZOS resize to 1920x1080, `save`, creator.py:68-70) is a foreign library call. It is a parameter: the set of source names whose conversion raises.
- Creating folders, listing the directory, writing files, `shutil.copy` and `shutil.move` are I/O. The listing is an input and the effects are returned as a plan. Whether a folder already existed is not modelled: the plan names all three folders to ensure.
- `input()`, `print()`, `os.getcwd()` and `sys.argv` are parameters or are omitted. The console messages are not modelled.
- Errors other than a failed image conversion abort the script (for example a failed write or copy). They are not modelled.
- `Text.Lower` folds only ASCII `A`-`Z`. Python's `str.lower` also folds other Unicode letters.
- `os.path.join` uses the host's path separator. The model writes folder paths with `/`, the separator the .vmat template uses.
- `os.path.join` (creator.py:65, 77, 100) drops the folder when the name joined to it is absolute. A map name that starts with a path separator (or, on Windows, a drive) therefore puts the PNG, the .vmat and the description file outside their folders, while the TextureA line still names the 1080p folder. This is not modelled: `PathOf` always joins the folder and the name.
- Listed names that contain bytes the file system encoding cannot decode become lone surrogates in Python. They have no counterpart in a Dafny `string` and are not modelled.
- Text-mode writing may turn each `\n` of the .vmat text into the host's line ending. The model keeps `\n`.
- The listing does not tell files from folders. A folder whose name looks like an image is selected, and its conversion is expected to fail, which the `failing` parameter covers.
