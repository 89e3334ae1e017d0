/** `ImageGallery` of src/scenes/image/ImageGallery.ts: still images grouped
    by category, looked up by category name and index. */
module ImageGallery {
  import opened Wrappers
  import opened ImageSlots
  import CellKeys
  import opened Sequences

  /** One entry of the `categories` argument of `load`. */
  datatype CategorySpec = CategorySpec(name: string, count: int)

  /** The two errors `getImage` throws. `max` is the category's length minus one. */
  datatype GalleryError =
    | CategoryNotFound(category: string)
    | IndexNotFound(index: int, category: string, max: int)

  /** The `images` map as a value: the arrays by category, and the order in
      which the categories were first inserted (the order a JavaScript `Map`
      lists its keys in). */
  datatype Gallery = Gallery(images: map<string, seq<Option<Image>>>, order: seq<string>)

  /** The insertion order lists each category exactly once. */
  ghost predicate GalleryValid(g: Gallery) {
    Distinct(g.order) && (forall name :: name in g.images <==> name in g.order)
  }

  /** `${basePath}/${name}/${i}.png`, `i` counted from 1. */
  function ImagePath(basePath: string, name: string, i: nat): string {
    basePath + "/" + name + "/" + CellKeys.NatToDecimal(i) + ".png"
  }

  /** Whether the load of slot `j` of the category succeeds, `load` saying which paths load. */
  function CategoryLoads(load: string -> Option<Image>, basePath: string, name: string): int -> Option<Image> {
    j => if j >= 0 then load(ImagePath(basePath, name, j + 1)) else None
  }

  /** `this.images.set(name, slots)`: a new name goes to the end of the key
      order, an existing one keeps its place. */
  function SetCategory(g: Gallery, name: string, slots: seq<Option<Image>>): (r: Gallery)
    requires GalleryValid(g)
    ensures GalleryValid(r)
    ensures name in r.images && r.images[name] == slots
    ensures forall other :: other != name ==> (other in r.images <==> other in g.images)
    ensures forall other :: other != name && other in g.images ==> r.images[other] == g.images[other]
  {
    Gallery(g.images[name := slots], if name in g.images then g.order else g.order + [name])
  }

  /** The gallery once `load(p, basePath, categories)` has settled. */
  function LoadCategories(g: Gallery, load: string -> Option<Image>, basePath: string,
                          categories: seq<CategorySpec>): (r: Gallery)
    requires GalleryValid(g)
    ensures GalleryValid(r)
  {
    if categories == [] then g
    else
      var n := |categories| - 1;
      var c := categories[n];
      SetCategory(LoadCategories(g, load, basePath, categories[..n]), c.name,
                  Filled(c.count, CategoryLoads(load, basePath, c.name)))
  }

  /** After loading, a category not listed in `categories` is left as it was. */
  lemma {:induction false} UnlistedCategoryKept(g: Gallery, load: string -> Option<Image>, basePath: string,
                                                categories: seq<CategorySpec>, name: string)
    requires GalleryValid(g)
    requires forall j :: 0 <= j < |categories| ==> categories[j].name != name
    ensures var r := LoadCategories(g, load, basePath, categories);
      (name in r.images <==> name in g.images) && (name in g.images ==> r.images[name] == g.images[name])
  {
    if categories != [] {
      var n := |categories| - 1;
      var front := categories[..n];
      assert forall j :: 0 <= j < |front| ==> front[j] == categories[j];
      UnlistedCategoryKept(g, load, basePath, front, name);
    }
  }

  /** After loading, a category holds what the loads of its image paths
      produced for its last entry in `categories`. */
  lemma {:induction false} LastEntryLoaded(g: Gallery, load: string -> Option<Image>, basePath: string,
                                           categories: seq<CategorySpec>, j: int)
    requires GalleryValid(g) && 0 <= j < |categories|
    requires forall k :: j < k < |categories| ==> categories[k].name != categories[j].name
    ensures var r := LoadCategories(g, load, basePath, categories);
      var c := categories[j];
      c.name in r.images && r.images[c.name] == Filled(c.count, CategoryLoads(load, basePath, c.name))
  {
    var n := |categories| - 1;
    if j < n {
      var front := categories[..n];
      var c := categories[j];
      assert front[j] == c;
      assert forall k :: j < k < |front| ==> front[k] == categories[k];
      LastEntryLoaded(g, load, basePath, front, j);
      var mid := LoadCategories(g, load, basePath, front);
      var last := categories[n];
      assert last.name != c.name;
      assert LoadCategories(g, load, basePath, categories)
          == SetCategory(mid, last.name, Filled(last.count, CategoryLoads(load, basePath, last.name)));
    }
  }

  /** After loading, slot `i` of a category holds the image loaded from
      `${basePath}/${name}/${i + 1}.png` when that load succeeded, and nothing
      otherwise, so `getImage(name, i)` succeeds exactly for the loaded files. */
  lemma LoadedImageReadsBack(g: Gallery, load: string -> Option<Image>, basePath: string,
                             categories: seq<CategorySpec>, j: int, i: int)
    requires GalleryValid(g) && 0 <= j < |categories|
    requires forall k :: j < k < |categories| ==> categories[k].name != categories[j].name
    ensures var r := LoadCategories(g, load, basePath, categories);
      var c := categories[j];
      && c.name in r.images
      && Get(r.images[c.name], i) == (if 0 <= i < c.count then load(ImagePath(basePath, c.name, i + 1)) else None)
      && |r.images[c.name]| <= (if c.count <= 0 then 0 else c.count)
  {
    var c := categories[j];
    LastEntryLoaded(g, load, basePath, categories, j);
    FilledReadsBack(c.count, CategoryLoads(load, basePath, c.name), i);
  }

  /** Loading keeps the categories already there, in front of the new ones. */
  lemma {:induction false} LoadKeepsOrderPrefix(g: Gallery, load: string -> Option<Image>, basePath: string,
                                                categories: seq<CategorySpec>)
    requires GalleryValid(g)
    ensures var r := LoadCategories(g, load, basePath, categories);
      |g.order| <= |r.order| && r.order[..|g.order|] == g.order
  {
    if categories != [] {
      var n := |categories| - 1;
      LoadKeepsOrderPrefix(g, load, basePath, categories[..n]);
      var mid := LoadCategories(g, load, basePath, categories[..n]);
      var r := LoadCategories(g, load, basePath, categories);
      assert r.order == mid.order || r.order == mid.order + [categories[n].name];
      assert r.order[..|g.order|] == mid.order[..|g.order|];
    }
  }

  /** After loading, every loaded category is listed. */
  lemma {:induction false} LoadListsLoadedCategories(g: Gallery, load: string -> Option<Image>, basePath: string,
                                                     categories: seq<CategorySpec>, j: int)
    requires GalleryValid(g) && 0 <= j < |categories|
    ensures categories[j].name in LoadCategories(g, load, basePath, categories).order
  {
    LastEntryFor(categories, j);
    var last :| j <= last < |categories| && categories[last].name == categories[j].name
                && forall m :: last < m < |categories| ==> categories[m].name != categories[j].name;
    LastEntryLoaded(g, load, basePath, categories, last);
  }

  /** Every entry has a last entry with the same name. */
  lemma {:induction false} LastEntryFor(categories: seq<CategorySpec>, j: int)
    requires 0 <= j < |categories|
    ensures exists last :: j <= last < |categories| && categories[last].name == categories[j].name
                           && forall m :: last < m < |categories| ==> categories[m].name != categories[j].name
    decreases |categories| - j
  {
    if exists m :: j < m < |categories| && categories[m].name == categories[j].name {
      var m :| j < m < |categories| && categories[m].name == categories[j].name;
      LastEntryFor(categories, m);
    } else {
      var last := j;
      assert forall m :: last < m < |categories| ==> categories[m].name != categories[j].name;
      assert j <= last < |categories| && categories[last].name == categories[j].name;
    }
  }

  /** After loading, only the old categories and the loaded ones are listed. */
  lemma {:induction false} LoadListsNothingElse(g: Gallery, load: string -> Option<Image>, basePath: string,
                                                categories: seq<CategorySpec>, name: string)
    requires GalleryValid(g)
    requires name in LoadCategories(g, load, basePath, categories).order
    ensures name in g.order || exists j :: 0 <= j < |categories| && categories[j].name == name
  {
    if name !in g.order && forall j :: 0 <= j < |categories| ==> categories[j].name != name {
      UnlistedCategoryKept(g, load, basePath, categories, name);
      assert false;
    }
  }

  /** The names of `categories`, in order. */
  function Names(categories: seq<CategorySpec>): (names: seq<string>)
    ensures |names| == |categories| && forall j :: 0 <= j < |names| ==> names[j] == categories[j].name
  {
    if categories == [] then []
    else Names(categories[..|categories| - 1]) + [categories[|categories| - 1].name]
  }

  /** In a list of distinct names, the last one is new and the others stay distinct. */
  lemma LastNameIsNew(categories: seq<CategorySpec>)
    requires categories != [] && Distinct(Names(categories))
    ensures var n := |categories| - 1;
      Distinct(Names(categories[..n])) && categories[n].name !in Names(categories[..n])
  {
    var n := |categories| - 1;
    var front := Names(categories[..n]);
    assert Names(categories) == front + [categories[n].name];
    forall i | 0 <= i < n
      ensures front[i] == Names(categories)[i]
    {
    }
  }

  /** Loading categories with distinct new names lists them after the
      existing ones, in the order they were given. */
  lemma {:induction false} LoadFreshCategoriesAppends(g: Gallery, load: string -> Option<Image>, basePath: string,
                                                      categories: seq<CategorySpec>)
    requires GalleryValid(g) && Distinct(Names(categories))
    requires forall j :: 0 <= j < |categories| ==> categories[j].name !in g.images
    ensures LoadCategories(g, load, basePath, categories).order == g.order + Names(categories)
  {
    if categories != [] {
      var n := |categories| - 1;
      var front := categories[..n];
      assert forall j :: 0 <= j < |front| ==> front[j] == categories[j];
      LastNameIsNew(categories);
      LoadFreshCategoriesAppends(g, load, basePath, front);
      var mid := LoadCategories(g, load, basePath, front);
      var last := categories[n];
      assert last.name !in g.order;
      assert last.name !in mid.images;
    }
  }

  class ImageGallery {
    var images: map<string, seq<Option<Image>>>
    var order: seq<string>

    /** The gallery as a value. */
    function Contents(): Gallery
      reads this
    {
      Gallery(images, order)
    }

    ghost predicate Valid()
      reads this
    {
      GalleryValid(Contents())
    }

    constructor ()
      ensures Valid() && images == map[] && order == []
    {
      images := map[];
      order := [];
    }

    /** `load(p, basePath, categories)` once its loads have settled: each
        category gets a fresh array, filled by the loads of its images. */
    method Load(load: string -> Option<Image>, basePath: string, categories: seq<CategorySpec>)
      requires Valid()
      modifies this
      ensures Valid() && Contents() == LoadCategories(old(Contents()), load, basePath, categories)
    {
      ghost var before := Contents();
      for k := 0 to |categories|
        invariant Valid()
        invariant Contents() == LoadCategories(before, load, basePath, categories[..k])
      {
        var category := categories[k];
        var categoryImages := Fill(category.count, CategoryLoads(load, basePath, category.name));
        if category.name !in images {
          order := order + [category.name];
        }
        images := images[category.name := categoryImages];
        assert categories[..k + 1][..k] == categories[..k];
      }
      assert categories[..|categories|] == categories;
    }

    /** `getImage(category, index)`: fails for an unknown category, and for
        an index with no image, which covers indices out of range and the
        holes left by failed loads. */
    function GetImage(category: string, index: int): (r: Result<Image, GalleryError>)
      reads this
      ensures r == Failure(CategoryNotFound(category)) <==> category !in images
      ensures r.Failure? && category in images ==>
                r.error == IndexNotFound(index, category, |images[category]| - 1)
      ensures r.Success? <==> category in images && Get(images[category], index).Some?
      ensures r.Success? ==> Some(r.value) == images[category][index]
    {
      if category !in images then Failure(CategoryNotFound(category))
      else
        match Get(images[category], index)
        case None => Failure(IndexNotFound(index, category, |images[category]| - 1))
        case Some(img) => Success(img)
    }

    /** `getImageCount(category)`: 0 for an unknown category. */
    function GetImageCount(category: string): (n: nat)
      reads this
      ensures category !in images ==> n == 0
      ensures category in images ==> n == |images[category]|
      ensures forall index :: GetImage(category, index).Success? ==> 0 <= index < n
    {
      if category in images then |images[category]| else 0
    }

    /** `getLength(category)`, an alias of `getImageCount`. */
    function GetLength(category: string): (n: nat)
      reads this
      ensures n == GetImageCount(category)
    {
      GetImageCount(category)
    }

    /** `getCategories()`: every category once, in insertion order. */
    function GetCategories(): (names: seq<string>)
      requires Valid()
      reads this
      ensures names == order
      ensures Distinct(names) && forall name :: name in names <==> name in images
    {
      order
    }

    /** `getLabels()`, an alias of `getCategories`. */
    function GetLabels(): (names: seq<string>)
      requires Valid()
      reads this
      ensures names == GetCategories()
    {
      GetCategories()
    }
  }
}
