/**
 * `create_map_files`: what the script does to a map's working directory,
 * as a plan computed from the directory listing. The plan names the
 * folders to create, one job per loading-screen image (its PNG and its
 * .vmat), the icon to copy and the description file to move or create.
 */
module Creator {
  import opened Wrappers
  import opened Text
  import opened Ordering
  import opened Listing
  import opened Vmat

  /** The three destination folders, relative to the working directory. */
  datatype Folder = LoadingScreens | MapIcons | Maps {
    /** The folder's path, its components joined with `/`. */
    function Path(): string
    {
      match this
      case LoadingScreens => "panorama/images/map_icons/screenshots/1080p"
      case MapIcons => "panorama/images/map_icons"
      case Maps => "maps"
    }
  }

  /** A destination file: a folder and a file name inside it. */
  datatype Dest = Dest(folder: Folder, name: string)

  /**
   * One pass of the image loop. The PNG at `image` is written only when
   * the conversion of `source` succeeds; the .vmat is written either way.
   */
  datatype ImageJob = ImageJob(
    index: nat,
    source: string,
    image: Dest,
    converted: bool,
    vmat: Dest,
    vmatText: string)

  datatype IconCopy = IconCopy(source: string, dest: Dest)

  /** Exactly one of the two happens to the map's description file. */
  datatype DescriptionStep =
    | MoveExisting(source: string, dest: Dest)
    | CreateEmpty(dest: Dest)

  datatype MapPlan = MapPlan(
    folders: seq<Folder>,
    images: seq<ImageJob>,
    icon: Option<IconCopy>,
    description: DescriptionStep)

  /** An empty map name stops the script before anything is done. */
  datatype Outcome = NothingPlanned | Planned(plan: MapPlan)

  /** A destination's path relative to the working directory. */
  function PathOf(d: Dest): string
  {
    d.folder.Path() + "/" + d.name
  }

  // Destination file names.

  /** The PNG written for an image. */
  function ScreenshotName(mapName: string, index: nat): (r: string)
    ensures EndsWith(r, ".png")
  {
    mapName + "_" + NatToString(index) + "_png.png"
  }

  /** The material written beside it. */
  function VmatName(mapName: string, index: nat): (r: string)
    ensures EndsWith(r, ".vmat")
  {
    mapName + "_" + NatToString(index) + "_png.vmat"
  }

  function IconName(mapName: string): (r: string)
    ensures IsIconName(r)
  {
    "map_icon_" + mapName + ".svg"
  }

  function DescriptionName(mapName: string): (r: string)
    ensures EndsWith(r, ".txt")
  {
    mapName + ".txt"
  }

  // Which listing entries the script picks up.

  /** The lower-cased name ends in one of the five image extensions. */
  predicate IsImageName(f: string)
  {
    var l := Lower(f);
    EndsWith(l, ".jpg") || EndsWith(l, ".jpeg") || EndsWith(l, ".png") ||
    EndsWith(l, ".tga") || EndsWith(l, ".bmp")
  }

  /** The name itself, not lower-cased, ends in `.svg`. */
  predicate IsIconName(f: string)
  {
    EndsWith(f, ".svg")
  }

  /** A `.txt` in any case that is neither `readme.txt` in any case nor the script itself. */
  predicate IsDescriptionSource(f: string, scriptName: string)
  {
    EndsWith(Lower(f), ".txt") && Lower(f) != "readme.txt" && f != scriptName
  }

  /** `sorted([f for f in files if f.lower().endswith(image_extensions)])`. */
  function SelectImages(listing: seq<string>): (r: seq<string>)
    ensures Sorted(r)
    ensures forall f :: f in r <==> f in listing && IsImageName(f)
  {
    var kept := Keep(listing, IsImageName);
    var r := Sort(kept);
    assert forall f :: f in r <==> f in kept by {
      forall f ensures f in r <==> f in kept {
        assert f in r <==> f in multiset(r);
        assert f in kept <==> f in multiset(kept);
      }
    }
    r
  }

  /** The job for the image at 1-based position `index`. */
  function Job(mapName: string, index: nat, source: string, failing: set<string>): ImageJob
  {
    ImageJob(index, source,
      Dest(LoadingScreens, ScreenshotName(mapName, index)), source !in failing,
      Dest(LoadingScreens, VmatName(mapName, index)), VmatContent(mapName, index))
  }

  /** `enumerate(image_files, 1)`: one job per image, numbered from 1. */
  function ImageJobs(mapName: string, images: seq<string>, failing: set<string>): seq<ImageJob>
  {
    seq(|images|, i requires 0 <= i < |images| => Job(mapName, i + 1, images[i], failing))
  }

  function IconCopyFor(mapName: string, found: Option<string>): Option<IconCopy>
  {
    match found
    case None => None
    case Some(f) => Some(IconCopy(f, Dest(MapIcons, IconName(mapName))))
  }

  function DescriptionStepFor(mapName: string, listing: seq<string>, scriptName: string): (r: DescriptionStep)
    ensures r.dest == Dest(Maps, DescriptionName(mapName))
    ensures r.MoveExisting? ==> r.source in listing && IsDescriptionSource(r.source, scriptName)
    ensures r.CreateEmpty? <==> forall f :: f in listing ==> !IsDescriptionSource(f, scriptName)
  {
    var candidates := Keep(listing, f => IsDescriptionSource(f, scriptName));
    var dest := Dest(Maps, DescriptionName(mapName));
    if candidates != [] then MoveExisting(candidates[0], dest) else CreateEmpty(dest)
  }

  /**
   * Everything one run of the script does, given the map name typed in,
   * the listing of the working directory, the script's own base name and
   * the set of listed names whose image conversion raises.
   */
  function Plan(mapName: string, listing: seq<string>, scriptName: string, failing: set<string>): (r: Outcome)
    ensures r.NothingPlanned? <==> mapName == ""
    ensures r.Planned? ==> r.plan.folders == [LoadingScreens, MapIcons, Maps]
    ensures r.Planned? ==> |r.plan.images| == |Keep(listing, IsImageName)|
  {
    if mapName == "" then
      NothingPlanned
    else
      var images := SelectImages(listing);
      var jobs := ImageJobs(mapName, images, failing);
      assert |jobs| == |multiset(images)| == |Keep(listing, IsImageName)|;
      Planned(MapPlan(
        [LoadingScreens, MapIcons, Maps],
        jobs,
        IconCopyFor(mapName, FirstMatch(listing, IsIconName)),
        DescriptionStepFor(mapName, listing, scriptName)))
  }

  // The script's loops.

  /** The image loop: converts each image in turn and writes its .vmat whether or not that worked. */
  method ProcessImages(mapName: string, imageFiles: seq<string>, failing: set<string>)
    returns (jobs: seq<ImageJob>)
    ensures jobs == ImageJobs(mapName, imageFiles, failing)
  {
    jobs := [];
    for i := 0 to |imageFiles|
      invariant |jobs| == i
      invariant forall j :: 0 <= j < i ==> jobs[j] == Job(mapName, j + 1, imageFiles[j], failing)
    {
      var index := i + 1;
      var source := imageFiles[i];
      var image := Dest(LoadingScreens, ScreenshotName(mapName, index));
      // The conversion is the one step that may raise; its error is only reported.
      var converted := source !in failing;
      var vmat := Dest(LoadingScreens, VmatName(mapName, index));
      jobs := jobs + [ImageJob(index, source, image, converted, vmat, VmatContent(mapName, index))];
    }
  }

  /** The icon loop: stops at the first entry ending in `.svg`, in listing order. */
  method FindIcon(listing: seq<string>) returns (icon: Option<string>)
    ensures icon == FirstMatch(listing, IsIconName)
  {
    var found := false;
    var source := "";
    var i := 0;
    while i < |listing|
      invariant i <= |listing|
      invariant FirstMatch(listing[i..], IsIconName) == FirstMatch(listing, IsIconName)
    {
      if IsIconName(listing[i]) {
        source := listing[i];
        found := true;
        break;
      }
      assert listing[i..][1..] == listing[i + 1..];
      i := i + 1;
    }
    if found {
      icon := Some(source);
    } else {
      icon := None;
    }
  }

  /** `create_map_files`, with its inputs passed in and its effects returned as a plan. */
  method CreateMapFiles(mapName: string, listing: seq<string>, scriptName: string, failing: set<string>)
    returns (outcome: Outcome)
    ensures outcome == Plan(mapName, listing, scriptName, failing)
  {
    if mapName == "" {
      return NothingPlanned;
    }
    var folders := [LoadingScreens, MapIcons, Maps];
    var imageFiles := SelectImages(listing);
    var jobs := ProcessImages(mapName, imageFiles, failing);
    var iconSource := FindIcon(listing);
    var description := DescriptionStepFor(mapName, listing, scriptName);
    outcome := Planned(MapPlan(folders, jobs, IconCopyFor(mapName, iconSource), description));
  }

  // What the plan promises.

  /** Nothing is planned exactly when the map name is empty. */
  lemma NothingPlannedIffEmptyName(mapName: string, listing: seq<string>, scriptName: string, failing: set<string>)
    ensures Plan(mapName, listing, scriptName, failing).NothingPlanned? <==> mapName == ""
  {
  }

  function Sources(jobs: seq<ImageJob>): seq<string>
  {
    seq(|jobs|, i requires 0 <= i < |jobs| => jobs[i].source)
  }

  /** The jobs follow the given images one to one, in order, numbered from 1. */
  lemma ImageJobsFollowImages(mapName: string, images: seq<string>, failing: set<string>)
    ensures var jobs := ImageJobs(mapName, images, failing);
      && Sources(jobs) == images
      && (forall i :: 0 <= i < |jobs| ==> jobs[i].index == i + 1)
  {
  }

  /**
   * The images processed are the image entries of the listing, each as
   * often as listed, in ascending order, numbered 1, 2, ... with no gap.
   */
  lemma PlanImagesSortedAndNumbered(mapName: string, listing: seq<string>, scriptName: string, failing: set<string>)
    requires mapName != ""
    ensures var jobs := Plan(mapName, listing, scriptName, failing).plan.images;
      && Sorted(Sources(jobs))
      && (forall f :: multiset(Sources(jobs))[f] == if IsImageName(f) then multiset(listing)[f] else 0)
      && (forall i :: 0 <= i < |jobs| ==> jobs[i].index == i + 1)
  {
    var images := SelectImages(listing);
    var jobs := Plan(mapName, listing, scriptName, failing).plan.images;
    assert jobs == ImageJobs(mapName, images, failing);
    ImageJobsFollowImages(mapName, images, failing);
    forall f
      ensures multiset(Sources(jobs))[f] == if IsImageName(f) then multiset(listing)[f] else 0
    {
      KeepCounts(listing, IsImageName, f);
    }
  }

  /** Screenshot names of one map are distinct for distinct indices. */
  lemma ScreenshotNameInjective(mapName: string, j: nat, k: nat)
    requires ScreenshotName(mapName, j) == ScreenshotName(mapName, k)
    ensures j == k
  {
    DecimalInfixInjective(mapName + "_", j, k, "_png.png");
  }

  /** .vmat names of one map are distinct for distinct indices. */
  lemma VmatNameInjective(mapName: string, j: nat, k: nat)
    requires VmatName(mapName, j) == VmatName(mapName, k)
    ensures j == k
  {
    DecimalInfixInjective(mapName + "_", j, k, "_png.vmat");
  }

  /** A screenshot name never coincides with a .vmat name. */
  lemma ScreenshotNameIsNotVmatName(mapName: string, j: nat, k: nat)
    ensures ScreenshotName(mapName, j) != VmatName(mapName, k)
  {
    var s, v := ScreenshotName(mapName, j), VmatName(mapName, k);
    assert s[|s| - 1] == 'g';
    assert v[|v| - 1] == 't';
  }

  /** Two jobs never share a PNG name, nor a .vmat name. */
  lemma ImageJobsNamesPairwiseDistinct(mapName: string, images: seq<string>, failing: set<string>)
    ensures var jobs := ImageJobs(mapName, images, failing);
      forall i, j :: 0 <= i < j < |jobs| ==> jobs[i].image != jobs[j].image && jobs[i].vmat != jobs[j].vmat
  {
    var jobs := ImageJobs(mapName, images, failing);
    forall i, j | 0 <= i < j < |jobs|
      ensures jobs[i].image != jobs[j].image && jobs[i].vmat != jobs[j].vmat
    {
      assert jobs[i].image.name == ScreenshotName(mapName, i + 1);
      assert jobs[j].image.name == ScreenshotName(mapName, j + 1);
      assert jobs[i].vmat.name == VmatName(mapName, i + 1);
      assert jobs[j].vmat.name == VmatName(mapName, j + 1);
      if jobs[i].image == jobs[j].image {
        ScreenshotNameInjective(mapName, i + 1, j + 1);
      }
      if jobs[i].vmat == jobs[j].vmat {
        VmatNameInjective(mapName, i + 1, j + 1);
      }
    }
  }

  /** No job's PNG has the name of any job's .vmat. */
  lemma ImageJobsImagesAreNotVmats(mapName: string, images: seq<string>, failing: set<string>)
    ensures var jobs := ImageJobs(mapName, images, failing);
      forall i, j :: 0 <= i < |jobs| && 0 <= j < |jobs| ==> jobs[i].image != jobs[j].vmat
  {
    var jobs := ImageJobs(mapName, images, failing);
    forall i, j | 0 <= i < |jobs| && 0 <= j < |jobs|
      ensures jobs[i].image != jobs[j].vmat
    {
      assert jobs[i].image.name == ScreenshotName(mapName, i + 1);
      assert jobs[j].vmat.name == VmatName(mapName, j + 1);
      ScreenshotNameIsNotVmatName(mapName, i + 1, j + 1);
    }
  }

  /** No two files written into the 1080p folder share a name. */
  lemma ImageJobsDestinationsDistinct(mapName: string, images: seq<string>, failing: set<string>)
    ensures var jobs := ImageJobs(mapName, images, failing);
      && (forall i, j :: 0 <= i < j < |jobs| ==> jobs[i].image != jobs[j].image && jobs[i].vmat != jobs[j].vmat)
      && (forall i, j :: 0 <= i < |jobs| && 0 <= j < |jobs| ==> jobs[i].image != jobs[j].vmat)
  {
    ImageJobsNamesPairwiseDistinct(mapName, images, failing);
    ImageJobsImagesAreNotVmats(mapName, images, failing);
  }

  /** The TextureA path of the template is the screenshot's own path under the 1080p folder. */
  lemma TexturePathIsScreenshotPath(mapName: string, index: nat)
    ensures TexturePath(mapName, index) == PathOf(Dest(LoadingScreens, ScreenshotName(mapName, index)))
  {
    assert "panorama/images/map_icons/screenshots/1080p" + "/" == "panorama/images/map_icons/screenshots/1080p/";
  }

  /** Each job's .vmat refers, through TextureA, to the PNG planned for the same image. */
  lemma ImageJobsVmatReferencesOwnImage(mapName: string, images: seq<string>, failing: set<string>)
    ensures var jobs := ImageJobs(mapName, images, failing);
      forall i :: 0 <= i < |jobs| ==>
        jobs[i].image.folder == jobs[i].vmat.folder == LoadingScreens &&
        TextureOf(jobs[i].vmatText) == Some(PathOf(jobs[i].image))
  {
    var jobs := ImageJobs(mapName, images, failing);
    forall i | 0 <= i < |jobs|
      ensures TextureOf(jobs[i].vmatText) == Some(PathOf(jobs[i].image))
    {
      assert jobs[i] == Job(mapName, i + 1, images[i], failing);
      TextureOfVmatContent(mapName, i + 1);
      TexturePathIsScreenshotPath(mapName, i + 1);
    }
  }

  lemma ImageJobsRegardlessOfConversion(mapName: string, images: seq<string>,
                                        failing1: set<string>, failing2: set<string>)
    ensures var jobs1, jobs2 := ImageJobs(mapName, images, failing1), ImageJobs(mapName, images, failing2);
      && |jobs1| == |jobs2|
      && (forall i :: 0 <= i < |jobs1| ==>
            jobs1[i].(converted := true) == jobs2[i].(converted := true) &&
            (jobs1[i].converted <==> jobs1[i].source !in failing1))
  {
  }

  /**
   * Whether a conversion raises changes nothing but that job's `converted`
   * flag: the same images are processed and every one still gets its .vmat.
   */
  lemma PlanVmatsRegardlessOfConversion(mapName: string, listing: seq<string>, scriptName: string,
                                       failing1: set<string>, failing2: set<string>)
    requires mapName != ""
    ensures var p1 := Plan(mapName, listing, scriptName, failing1).plan;
      var p2 := Plan(mapName, listing, scriptName, failing2).plan;
      && |p1.images| == |p2.images|
      && (forall i :: 0 <= i < |p1.images| ==>
            p1.images[i].(converted := true) == p2.images[i].(converted := true) &&
            (p1.images[i].converted <==> p1.images[i].source !in failing1))
      && p1.folders == p2.folders && p1.icon == p2.icon && p1.description == p2.description
  {
    var images := SelectImages(listing);
    ImageJobsRegardlessOfConversion(mapName, images, failing1, failing2);
  }

  /**
   * The icon copied is the first listed entry whose name ends in `.svg`
   * (case-sensitively), saved as `map_icon_{map}.svg`; with no such entry
   * no icon is copied.
   */
  lemma PlanIcon(mapName: string, listing: seq<string>, scriptName: string, failing: set<string>)
    requires mapName != ""
    ensures var icon := Plan(mapName, listing, scriptName, failing).plan.icon;
      && (icon.None? <==> forall i :: 0 <= i < |listing| ==> !EndsWith(listing[i], ".svg"))
      && (icon.Some? ==>
            icon.value.dest == Dest(MapIcons, "map_icon_" + mapName + ".svg") &&
            exists i :: 0 <= i < |listing| && listing[i] == icon.value.source &&
              EndsWith(listing[i], ".svg") && forall j :: 0 <= j < i ==> !EndsWith(listing[j], ".svg"))
  {
    FirstMatchSpec(listing, IsIconName);
  }

  /**
   * The description file is always `maps/{map}.txt`. It is moved from the
   * first listed qualifying `.txt` entry when there is one, and created
   * empty exactly when there is none.
   */
  lemma PlanDescription(mapName: string, listing: seq<string>, scriptName: string, failing: set<string>)
    requires mapName != ""
    ensures var d := Plan(mapName, listing, scriptName, failing).plan.description;
      && d.dest == Dest(Maps, mapName + ".txt")
      && (d.CreateEmpty? <==> forall i :: 0 <= i < |listing| ==> !IsDescriptionSource(listing[i], scriptName))
      && (d.MoveExisting? ==>
            exists i :: 0 <= i < |listing| && listing[i] == d.source &&
              EndsWith(Lower(d.source), ".txt") && Lower(d.source) != "readme.txt" && d.source != scriptName &&
              forall j :: 0 <= j < i ==> !IsDescriptionSource(listing[j], scriptName))
  {
    var p := f => IsDescriptionSource(f, scriptName);
    FirstMatchIsHeadOfKeep(listing, p);
    FirstMatchSpec(listing, p);
  }

  /** The last three characters, lower-cased, of a name the image filter accepts. */
  lemma ImageNameTail(f: string)
    requires IsImageName(f)
    ensures var l := Lower(f); |l| >= 3 && l[|l| - 3..] in {"jpg", "peg", "png", "tga", "bmp"}
  {
    var l := Lower(f);
    EndsWithTail(l, ".jpg", 3);
    EndsWithTail(l, ".jpeg", 3);
    EndsWithTail(l, ".png", 3);
    EndsWithTail(l, ".tga", 3);
    EndsWithTail(l, ".bmp", 3);
  }

  /** The last three characters, lower-cased, of a name the icon filter accepts. */
  lemma IconNameTail(f: string)
    requires IsIconName(f)
    ensures var l := Lower(f); |l| >= 3 && l[|l| - 3..] == "svg"
  {
    LowerKeepsLowerSuffix(f, ".svg");
    EndsWithTail(Lower(f), ".svg", 3);
  }

  /** The last three characters, lower-cased, of a name the description filter accepts. */
  lemma DescriptionSourceTail(f: string, scriptName: string)
    requires IsDescriptionSource(f, scriptName)
    ensures var l := Lower(f); |l| >= 3 && l[|l| - 3..] == "txt"
  {
    EndsWithTail(Lower(f), ".txt", 3);
  }

  /** No name passes two of the three filters. */
  lemma FiltersDisjoint(f: string, scriptName: string)
    ensures !(IsImageName(f) && IsIconName(f))
    ensures !(IsImageName(f) && IsDescriptionSource(f, scriptName))
    ensures !(IsIconName(f) && IsDescriptionSource(f, scriptName))
  {
    if IsImageName(f) {
      ImageNameTail(f);
    }
    if IsIconName(f) {
      IconNameTail(f);
    }
    if IsDescriptionSource(f, scriptName) {
      DescriptionSourceTail(f, scriptName);
    }
  }

  /** Every source the plan uses passes the filter of its step. */
  lemma PlanSourcesPassFilters(mapName: string, listing: seq<string>, scriptName: string, failing: set<string>)
    requires mapName != ""
    ensures var p := Plan(mapName, listing, scriptName, failing).plan;
      && (forall i :: 0 <= i < |p.images| ==> IsImageName(p.images[i].source))
      && (p.icon.Some? ==> IsIconName(p.icon.value.source))
      && (p.description.MoveExisting? ==> IsDescriptionSource(p.description.source, scriptName))
  {
    var images := SelectImages(listing);
    ImageJobsFollowImages(mapName, images, failing);
    forall i | 0 <= i < |images|
      ensures IsImageName(images[i])
    {
      assert images[i] in multiset(Keep(listing, IsImageName));
    }
    FirstMatchSpec(listing, IsIconName);
    PlanDescription(mapName, listing, scriptName, failing);
  }

  /** No listed file is picked for two different purposes. */
  lemma PlanSourcesDisjoint(mapName: string, listing: seq<string>, scriptName: string, failing: set<string>)
    requires mapName != ""
    ensures var p := Plan(mapName, listing, scriptName, failing).plan;
      && (p.icon.Some? ==> forall i :: 0 <= i < |p.images| ==> p.images[i].source != p.icon.value.source)
      && (p.description.MoveExisting? ==> forall i :: 0 <= i < |p.images| ==> p.images[i].source != p.description.source)
      && (p.icon.Some? && p.description.MoveExisting? ==> p.icon.value.source != p.description.source)
  {
    var p := Plan(mapName, listing, scriptName, failing).plan;
    PlanSourcesPassFilters(mapName, listing, scriptName, failing);
    forall i | 0 <= i < |p.images|
      ensures p.icon.Some? ==> p.images[i].source != p.icon.value.source
      ensures p.description.MoveExisting? ==> p.images[i].source != p.description.source
    {
      FiltersDisjoint(p.images[i].source, scriptName);
    }
    if p.icon.Some? {
      FiltersDisjoint(p.icon.value.source, scriptName);
    }
  }

  /** The image filter ignores case. */
  lemma ImageFilterIgnoresCase()
    ensures IsImageName("SHOT.PNG") && IsImageName("shot.Jpeg")
  {
    assert Lower("SHOT.PNG") == "shot.png";
    assert Lower("shot.Jpeg") == "shot.jpeg";
  }

  /** The icon filter does not ignore case. */
  lemma IconFilterKeepsCase()
    ensures IsIconName("icon.svg") && !IsIconName("ICON.SVG")
  {
    assert "ICON.SVG"[4..] == ".SVG";
  }

  /**
   * The description filter ignores case for `.txt` and `readme.txt`, but
   * not when comparing with the script's own name.
   */
  lemma DescriptionFilterCases()
    ensures IsDescriptionSource("Notes.TXT", "creator.py")
    ensures !IsDescriptionSource("ReadMe.Txt", "creator.py")
    ensures !IsDescriptionSource("run.txt", "run.txt") && IsDescriptionSource("RUN.txt", "run.txt")
  {
    assert Lower("Notes.TXT") == "notes.txt";
    assert Lower("ReadMe.Txt") == "readme.txt";
    assert Lower("RUN.txt") == "run.txt";
  }
}
