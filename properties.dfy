/**
 * The property handlers of backend/src/controllers/property.controller.js over
 * an in-memory property table: create, update and delete (both guarded by
 * ownership), get-by-id (which counts a view) and list-mine, together with the
 * pure rules they share for text fields, numbers, features and image lists.
 */
module Properties {
  import opened Common
  import opened Text

  /**
   * What `JSON.parse` makes of a string: it throws, it yields an array of
   * strings, or any other JSON value (an array holding a non-string included).
   */
  datatype Json = Unparsable | StringArray(items: seq<string>) | OtherValue

  /** The `features` body field: absent, a string, or an array. */
  datatype FeatureField = NoFeatures | FeatureText(text: string) | FeatureList(items: seq<string>)

  /** A file as multer hands it over: its bytes when held in memory, and its storage path ("" when it has none). */
  datatype UploadedFile = UploadedFile(buffer: Option<seq<bv8>>, path: string)

  /** The library calls the handlers make: `parseInt`, `parseFloat`, `JSON.parse` and the media upload. */
  datatype Runtime = Runtime(
    parseInt: string -> Parsed<int>,
    parseFloat: string -> Parsed<real>,
    parseJson: string -> Json,
    upload: seq<bv8> -> string)

  /** The request body of create and update; `None` is a field the body does not carry. */
  datatype PropertyInput = PropertyInput(
    title: Option<string>,
    description: Option<string>,
    price: Option<string>,
    location: Option<string>,
    kind: Option<string>,
    bedrooms: Option<string>,
    bathrooms: Option<string>,
    area: Option<string>,
    yearBuilt: Option<string>,
    parking: Option<string>,
    features: FeatureField,
    images: Option<string>,
    existingImages: Option<string>)

  /** A row of the property table. `kind` is the `type` column. */
  datatype Property = Property(
    id: Id,
    ownerId: Id,
    title: Option<string>,
    description: Option<string>,
    price: Parsed<real>,
    location: Option<string>,
    kind: string,
    bedrooms: Parsed<int>,
    bathrooms: Parsed<int>,
    area: Parsed<real>,
    yearBuilt: Option<Parsed<int>>,
    parking: Option<string>,
    features: seq<string>,
    images: seq<string>,
    views: Option<nat>,
    createdAt: int)

  /** A body with no fields at all. */
  const NoInput := PropertyInput(None, None, None, None, None, None, None, None, None, None, NoFeatures, None, None)

  // ---------------------------------------------------------------------------
  // Text fields and numbers

  lemma EmptyTextLines(s: string)
    requires s == []
    ensures TrimAll(Split(NormalizeNewlines(s), '\n')) == [[]]
  {
    assert NormalizeNewlines(s) == s;
    var pieces := Split(s, '\n');
    assert pieces == [[]];
    assert Trimmed(pieces[0]);
  }

  /** The sanitiser leaves the empty string empty. */
  lemma SanitizeEmpty(s: string)
    requires s == []
    ensures SanitizeText(s) == []
  {
    EmptyTextLines(s);
    var lines: seq<string> := [[]];
    assert SqueezeBlankLines(lines) == lines;
    assert Join(lines, '\n') == [];
    assert Trimmed(Join(lines, '\n'));
  }

  lemma SanitizeEmptyText(s: string)
    ensures s == [] ==> SanitizeText(s) == []
  {
    if s == [] {
      SanitizeEmpty(s);
    }
  }

  /**
   * `sanitizeText(v) || v`: the sanitised text, or the raw value when sanitising
   * leaves nothing. The field stays absent when absent and is truthy exactly when
   * the raw value is.
   */
  function CleanOrRaw(v: Option<string>): (r: Option<string>)
    ensures v.None? <==> r.None?
    ensures Truthy(r) <==> Truthy(v)
    ensures v.Some? && SanitizeText(v.value) != [] ==> r == Some(SanitizeText(v.value))
    ensures v.Some? && SanitizeText(v.value) == [] ==> r == v
  {
    match v
    case None => None
    case Some(text) =>
      SanitizeEmptyText(text);
      var clean := SanitizeText(text);
      if clean != [] then Some(clean) else v
  }

  /** `parseInt(v)` on a field that may be undefined: `parseInt(undefined)` is NaN. */
  function IntOf(rt: Runtime, v: Option<string>): (r: Parsed<int>)
    ensures v.None? ==> r == NaN
    ensures v.Some? ==> r == rt.parseInt(v.value)
  {
    if v.Some? then rt.parseInt(v.value) else NaN
  }

  /** `parseFloat(v)` on a field that may be undefined. */
  function RealOf(rt: Runtime, v: Option<string>): (r: Parsed<real>)
    ensures v.None? ==> r == NaN
    ensures v.Some? ==> r == rt.parseFloat(v.value)
  {
    if v.Some? then rt.parseFloat(v.value) else NaN
  }

  /** `parseInt(v) || 0`: NaN becomes 0, a number is kept. */
  function IntOrZero(p: Parsed<int>): (r: Parsed<int>)
    ensures r.Num?
    ensures p.Num? ==> r == p
    ensures p.NaN? ==> r == Num(0)
  {
    if p.Num? then p else Num(0)
  }

  /** `parseFloat(v) || 0`. */
  function RealOrZero(p: Parsed<real>): (r: Parsed<real>)
    ensures r.Num?
    ensures p.Num? ==> r == p
    ensures p.NaN? ==> r == Num(0.0)
  {
    if p.Num? then p else Num(0.0)
  }

  // ---------------------------------------------------------------------------
  // Features

  /**
   * The `features` field as both handlers read it: nothing when absent or empty,
   * the parsed array of a JSON string, the comma-split fallback of any other
   * string, and an array as it is.
   */
  function ParseFeatures(f: FeatureField, parseJson: string -> Json): (r: seq<string>)
    ensures f.NoFeatures? ==> r == []
    ensures f == FeatureText([]) ==> r == []
    ensures f.FeatureList? ==> r == f.items
    ensures f.FeatureText? && f.text != [] && parseJson(f.text).StringArray? ==> r == parseJson(f.text).items
    ensures f.FeatureText? && f.text != [] && parseJson(f.text).Unparsable? ==> r == SplitFeatures(f.text)
    ensures f.FeatureText? && parseJson(f.text).Unparsable? ==>
      forall item :: item in r ==> item != [] && Trimmed(item) && ',' !in item
    ensures f.FeatureText? && parseJson(f.text).OtherValue? ==> r == []
  {
    match f
    case NoFeatures => []
    case FeatureList(items) => items
    case FeatureText(text) =>
      if text == [] then []
      else match parseJson(text)
        case StringArray(items) => items
        case Unparsable => SplitFeatures(text)
        case OtherValue => []
  }

  /** A comma-separated list of clean items that is not JSON is read back as those items, in order. */
  lemma {:induction false} CommaFeaturesRoundTrip(items: seq<string>, parseJson: string -> Json)
    requires forall item :: item in items ==> item != [] && Trimmed(item) && ',' !in item
    requires parseJson(Join(items, ',')).Unparsable?
    ensures ParseFeatures(FeatureText(Join(items, ',')), parseJson) == items
  {
    SplitFeaturesJoin(items);
    if items != [] {
      assert items[0] in items;
      assert Join(items, ',') != [] by {
        if |items| > 1 {
          assert Join(items, ',') == items[0] + [','] + Join(items[1..], ',');
        }
      }
    }
  }

  // ---------------------------------------------------------------------------
  // Image lists

  /** What one file adds at create: the uploaded URL then the file's path, for a file held in memory; nothing otherwise. */
  function CreateEntries(file: UploadedFile, upload: seq<bv8> -> string): seq<string> {
    if file.buffer.Some? then [upload(file.buffer.value), file.path] else []
  }

  /** The entries of all files at create, in file order. */
  function CreateUploads(files: seq<UploadedFile>, upload: seq<bv8> -> string): seq<string> {
    if files == [] then []
    else CreateUploads(files[..|files| - 1], upload) + CreateEntries(files[|files| - 1], upload)
  }

  /** The `images` body field at create: a JSON array appended element by element, an unparsable string appended verbatim. */
  function CallerImages(images: Option<string>, parseJson: string -> Json): (r: seq<string>)
    ensures !Truthy(images) ==> r == []
    ensures Truthy(images) && parseJson(images.value).Unparsable? ==> r == [images.value]
    ensures Truthy(images) && parseJson(images.value).StringArray? ==> r == parseJson(images.value).items
    ensures Truthy(images) && parseJson(images.value).OtherValue? ==> r == []
  {
    if !Truthy(images) then []
    else match parseJson(images.value)
      case StringArray(items) => items
      case Unparsable => [images.value]
      case OtherValue => []
  }

  /** The image list of a new record: the uploads first, then the caller's images. */
  function CreateImages(files: seq<UploadedFile>, images: Option<string>, rt: Runtime): (r: seq<string>)
    ensures |r| == |CreateUploads(files, rt.upload)| + |CallerImages(images, rt.parseJson)|
    ensures r[..|CreateUploads(files, rt.upload)|] == CreateUploads(files, rt.upload)
    ensures r[|CreateUploads(files, rt.upload)|..] == CallerImages(images, rt.parseJson)
  {
    CreateUploads(files, rt.upload) + CallerImages(images, rt.parseJson)
  }

  /** With every file held in memory, file `i` contributes entries `2i` (its URL) and `2i + 1` (its path). */
  lemma {:induction false} CreateUploadsInMemory(files: seq<UploadedFile>, upload: seq<bv8> -> string)
    requires forall f :: f in files ==> f.buffer.Some?
    ensures |CreateUploads(files, upload)| == 2 * |files|
    ensures forall i :: 0 <= i < |files| ==>
      CreateUploads(files, upload)[2 * i] == upload(files[i].buffer.value) &&
      CreateUploads(files, upload)[2 * i + 1] == files[i].path
  {
    if files != [] {
      var init := files[..|files| - 1];
      assert forall f :: f in init ==> f in files;
      CreateUploadsInMemory(init, upload);
      assert files[|files| - 1] in files;
      var r := CreateUploads(files, upload);
      forall i | 0 <= i < |files|
        ensures r[2 * i] == upload(files[i].buffer.value) && r[2 * i + 1] == files[i].path
      {
        if i < |files| - 1 {
          assert files[i] == init[i];
        }
      }
    }
  }

  /** What one file adds at update: the uploaded URL for a file held in memory, else its path when it has one. */
  function UpdateEntry(file: UploadedFile, upload: seq<bv8> -> string): seq<string> {
    if file.buffer.Some? then [upload(file.buffer.value)]
    else if file.path != [] then [file.path]
    else []
  }

  /** A file update can use: one held in memory, or one with a path. */
  predicate Usable(file: UploadedFile) {
    file.buffer.Some? || file.path != []
  }

  /** The entries of all files at update, in file order: at most one per file. */
  function UpdateUploads(files: seq<UploadedFile>, upload: seq<bv8> -> string): (r: seq<string>)
    ensures |r| <= |files|
  {
    if files == [] then []
    else UpdateUploads(files[..|files| - 1], upload) + UpdateEntry(files[|files| - 1], upload)
  }

  /** With every file usable, file `i` contributes entry `i`: its uploaded URL when held in memory, else its path. */
  lemma {:induction false} UpdateUploadsUsable(files: seq<UploadedFile>, upload: seq<bv8> -> string)
    requires forall i :: 0 <= i < |files| ==> Usable(files[i])
    ensures |UpdateUploads(files, upload)| == |files|
    ensures forall i :: 0 <= i < |files| ==>
      UpdateUploads(files, upload)[i] == if files[i].buffer.Some? then upload(files[i].buffer.value) else files[i].path
  {
    if files != [] {
      var init := files[..|files| - 1];
      var last := files[|files| - 1];
      UpdateUploadsUsable(init, upload);
      var r := UpdateUploads(files, upload);
      assert r == UpdateUploads(init, upload) + UpdateEntry(last, upload);
      assert Usable(last);
      forall i | 0 <= i < |files|
        ensures r[i] == if files[i].buffer.Some? then upload(files[i].buffer.value) else files[i].path
      {
        if i < |init| {
          assert init[i] == files[i];
        }
      }
    }
  }

  lemma UpdateUploadsStep(files: seq<UploadedFile>, i: int, upload: seq<bv8> -> string)
    requires 0 <= i < |files|
    ensures UpdateUploads(files[..i + 1], upload) == UpdateUploads(files[..i], upload) + UpdateEntry(files[i], upload)
  {
    assert files[..i + 1][..i] == files[..i];
  }

  /** Each file adds its own entry after those of the files before it. */
  lemma {:induction false} UpdateUploadsAppend(a: seq<UploadedFile>, b: seq<UploadedFile>, upload: seq<bv8> -> string)
    ensures UpdateUploads(a + b, upload) == UpdateUploads(a, upload) + UpdateUploads(b, upload)
    decreases |b|
  {
    if b == [] {
      assert a + b == a;
    } else {
      var init := b[..|b| - 1];
      assert (a + b)[..|a + b| - 1] == a + init;
      UpdateUploadsAppend(a, init, upload);
    }
  }

  /** `existingImages`: the images kept from the stored list, when it parses as an array. */
  function KeptImages(existing: Option<string>, parseJson: string -> Json): (r: seq<string>)
    ensures !Truthy(existing) ==> r == []
    ensures Truthy(existing) && parseJson(existing.value).StringArray? ==> r == parseJson(existing.value).items
    ensures Truthy(existing) && !parseJson(existing.value).StringArray? ==> r == []
  {
    if Truthy(existing) && parseJson(existing.value).StringArray? then parseJson(existing.value).items else []
  }

  /** The image list an update computes: the kept images, then the new uploads. */
  function UpdateImages(files: seq<UploadedFile>, existing: Option<string>, rt: Runtime): (r: seq<string>)
    ensures r == KeptImages(existing, rt.parseJson) + UpdateUploads(files, rt.upload)
  {
    KeptImages(existing, rt.parseJson) + UpdateUploads(files, rt.upload)
  }

  /**
   * With every file usable, the updated list is the kept images followed by
   * one entry per file, in file order: its uploaded URL, or else its path.
   */
  lemma UpdateImagesUsable(files: seq<UploadedFile>, existing: Option<string>, rt: Runtime)
    requires forall i :: 0 <= i < |files| ==> Usable(files[i])
    ensures var k := |KeptImages(existing, rt.parseJson)|;
      && |UpdateImages(files, existing, rt)| == k + |files|
      && UpdateImages(files, existing, rt)[..k] == KeptImages(existing, rt.parseJson)
      && forall i :: 0 <= i < |files| ==>
        UpdateImages(files, existing, rt)[k + i] == if files[i].buffer.Some? then rt.upload(files[i].buffer.value) else files[i].path
  {
    UpdateUploadsUsable(files, rt.upload);
  }

  /**
   * Files stored straight to the media host come with a path and no bytes.
   * Create drops every one of them, while update keeps each path, in order.
   */
  lemma {:induction false} StoredFilesAtCreateAndUpdate(files: seq<UploadedFile>, upload: seq<bv8> -> string)
    requires forall f :: f in files ==> f.buffer.None? && f.path != []
    ensures CreateUploads(files, upload) == []
    ensures |UpdateUploads(files, upload)| == |files|
    ensures forall i :: 0 <= i < |files| ==> UpdateUploads(files, upload)[i] == files[i].path
  {
    if files != [] {
      var init := files[..|files| - 1];
      assert forall f :: f in init ==> f in files;
      assert files[|files| - 1] in files;
      StoredFilesAtCreateAndUpdate(init, upload);
      forall i | 0 <= i < |files| - 1 ensures UpdateUploads(files, upload)[i] == files[i].path {
        assert files[i] == init[i];
      }
    }
  }

  /** The loop at create: files first, then the `images` field. */
  method CollectCreateImages(files: seq<UploadedFile>, images: Option<string>, rt: Runtime)
    returns (urls: seq<string>)
    ensures urls == CreateImages(files, images, rt)
  {
    urls := [];
    var i := 0;
    while i < |files|
      invariant 0 <= i <= |files|
      invariant urls == CreateUploads(files[..i], rt.upload)
    {
      var file := files[i];
      if file.buffer.Some? {
        urls := urls + [rt.upload(file.buffer.value)];
        urls := urls + [file.path];
      }
      assert files[..i + 1][..i] == files[..i];
      i := i + 1;
    }
    assert files[..i] == files;
    if Truthy(images) {
      match rt.parseJson(images.value)
      case StringArray(items) =>
        urls := urls + items;
      case Unparsable =>
        urls := urls + [images.value];
      case OtherValue =>
    }
  }

  /** The loop at update: the kept images first, then one entry per usable file. */
  method CollectUpdateImages(files: seq<UploadedFile>, existing: Option<string>, rt: Runtime)
    returns (urls: seq<string>)
    ensures urls == UpdateImages(files, existing, rt)
  {
    urls := [];
    if Truthy(existing) {
      match rt.parseJson(existing.value)
      case StringArray(items) =>
        urls := items;
      case _ =>
    }
    ghost var kept := urls;
    assert kept == KeptImages(existing, rt.parseJson);
    var i := 0;
    while i < |files|
      invariant 0 <= i <= |files|
      invariant urls == kept + UpdateUploads(files[..i], rt.upload)
    {
      var file := files[i];
      ghost var before := urls;
      if file.buffer.Some? {
        urls := urls + [rt.upload(file.buffer.value)];
      } else if file.path != [] {
        urls := urls + [file.path];
      }
      assert urls == before + UpdateEntry(file, rt.upload);
      UpdateUploadsStep(files, i, rt.upload);
      AppendAfter(kept, UpdateUploads(files[..i], rt.upload), UpdateEntry(file, rt.upload));
      i := i + 1;
    }
    assert files[..i] == files;
  }

  lemma AppendAfter(a: seq<string>, b: seq<string>, c: seq<string>)
    ensures (a + b) + c == a + (b + c)
  {
  }

  // ---------------------------------------------------------------------------
  // Records

  /**
   * The record `addProperty` creates from a body, its image list and the caller.
   * Bedrooms, bathrooms and area fall back to 0, but the price has no fallback;
   * the type defaults to "For Sale"; `yearBuilt` is null when falsy; parking is
   * null when it is falsy.
   */
  function NewRecord(id: Id, caller: Id, input: PropertyInput, images: seq<string>, now: int, rt: Runtime): (p: Property)
    ensures p.id == id && p.ownerId == caller && p.createdAt == now && p.views.None?
    ensures p.kind == if Truthy(input.kind) then input.kind.value else "For Sale"
    ensures p.bedrooms == IntOrZero(IntOf(rt, input.bedrooms))
    ensures p.bathrooms == IntOrZero(IntOf(rt, input.bathrooms))
    ensures p.area == RealOrZero(RealOf(rt, input.area))
    ensures p.price == RealOf(rt, input.price)
    ensures p.yearBuilt == YearOr(input.yearBuilt, rt.parseInt, None)
    ensures p.title == CleanOrRaw(input.title)
    ensures p.description == CleanOrRaw(input.description)
    ensures p.location == CleanOrRaw(input.location)
    ensures p.parking == if Truthy(input.parking) then CleanOrRaw(input.parking) else None
    ensures p.parking.Some? ==> p.parking.value != []
    ensures p.features == ParseFeatures(input.features, rt.parseJson)
    ensures p.images == images
  {
    var parking := CleanOrRaw(input.parking);
    Property(
      id := id,
      ownerId := caller,
      title := CleanOrRaw(input.title),
      description := CleanOrRaw(input.description),
      price := RealOf(rt, input.price),
      location := CleanOrRaw(input.location),
      kind := if Truthy(input.kind) then input.kind.value else "For Sale",
      bedrooms := IntOrZero(IntOf(rt, input.bedrooms)),
      bathrooms := IntOrZero(IntOf(rt, input.bathrooms)),
      area := RealOrZero(RealOf(rt, input.area)),
      yearBuilt := YearOr(input.yearBuilt, rt.parseInt, None),
      parking := if Truthy(parking) then parking else None,
      features := ParseFeatures(input.features, rt.parseJson),
      images := images,
      views := None,
      createdAt := now)
  }

  /** `(new || raw) || stored` for a sanitised text field. */
  function MergeText(stored: Option<string>, v: Option<string>): (r: Option<string>)
    ensures !Truthy(v) ==> r == stored
    ensures Truthy(v) ==> r == CleanOrRaw(v) && Truthy(r)
  {
    if Truthy(CleanOrRaw(v)) then CleanOrRaw(v) else stored
  }

  /** `v ? parse(v) : otherwise`: a truthy field is parsed, a falsy one gives the fallback. */
  function ParsedOr<T>(v: Option<string>, parse: string -> T, otherwise: T): (r: T)
    ensures Truthy(v) ==> r == parse(v.value)
    ensures !Truthy(v) ==> r == otherwise
  {
    if Truthy(v) then parse(v.value) else otherwise
  }

  /** `yearBuilt ? parseInt(yearBuilt) : otherwise`, the fallback being null at create and the stored year at update. */
  function YearOr(v: Option<string>, parseInt: string -> Parsed<int>, otherwise: Option<Parsed<int>>): (r: Option<Parsed<int>>)
    ensures Truthy(v) ==> r == Some(parseInt(v.value))
    ensures !Truthy(v) ==> r == otherwise
  {
    if Truthy(v) then Some(parseInt(v.value)) else otherwise
  }

  /**
   * The record `updateProperty` writes: a truthy field of the body replaces
   * the stored value (a text field by its cleaned text, a number by its parse)
   * and a falsy one keeps it; features and images are replaced only by a
   * non-empty list, and the id, owner, view count and creation time are never
   * touched.
   */
  function Merge(p: Property, input: PropertyInput, images: seq<string>, rt: Runtime): (r: Property)
    ensures r.id == p.id && r.ownerId == p.ownerId && r.views == p.views && r.createdAt == p.createdAt
    ensures r.title == MergeText(p.title, input.title)
    ensures r.description == MergeText(p.description, input.description)
    ensures r.location == MergeText(p.location, input.location)
    ensures r.parking == MergeText(p.parking, input.parking)
    ensures r.price == ParsedOr(input.price, rt.parseFloat, p.price)
    ensures r.kind == if Truthy(input.kind) then input.kind.value else p.kind
    ensures r.bedrooms == ParsedOr(input.bedrooms, rt.parseInt, p.bedrooms)
    ensures r.bathrooms == ParsedOr(input.bathrooms, rt.parseInt, p.bathrooms)
    ensures r.area == ParsedOr(input.area, rt.parseFloat, p.area)
    ensures r.yearBuilt == YearOr(input.yearBuilt, rt.parseInt, p.yearBuilt)
    ensures ParseFeatures(input.features, rt.parseJson) == [] ==> r.features == p.features
    ensures ParseFeatures(input.features, rt.parseJson) != [] ==> r.features == ParseFeatures(input.features, rt.parseJson)
    ensures images == [] ==> r.images == p.images
    ensures images != [] ==> r.images == images
  {
    var features := ParseFeatures(input.features, rt.parseJson);
    p.(
      title := MergeText(p.title, input.title),
      description := MergeText(p.description, input.description),
      price := ParsedOr(input.price, rt.parseFloat, p.price),
      location := MergeText(p.location, input.location),
      kind := if Truthy(input.kind) then input.kind.value else p.kind,
      bedrooms := ParsedOr(input.bedrooms, rt.parseInt, p.bedrooms),
      bathrooms := ParsedOr(input.bathrooms, rt.parseInt, p.bathrooms),
      area := ParsedOr(input.area, rt.parseFloat, p.area),
      yearBuilt := YearOr(input.yearBuilt, rt.parseInt, p.yearBuilt),
      parking := MergeText(p.parking, input.parking),
      features := if |features| > 0 then features else p.features,
      images := if |images| > 0 then images else p.images)
  }

  /** An update whose body is empty and which uploads nothing leaves the record as it was. */
  lemma MergeNothing(p: Property, rt: Runtime)
    ensures Merge(p, NoInput, UpdateImages([], None, rt), rt) == p
  {
    assert UpdateUploads([], rt.upload) == [];
  }

  /** Applying the same update twice writes the same record as applying it once. */
  lemma MergeTwice(p: Property, input: PropertyInput, images: seq<string>, rt: Runtime)
    ensures Merge(Merge(p, input, images, rt), input, images, rt) == Merge(p, input, images, rt)
  {
  }

  /** The write `getPropertyById` makes: one more view, nothing else changed. */
  function Viewed(p: Property): (r: Property)
    ensures r.views == Some(p.views.GetOr(0) + 1)
    ensures r.(views := p.views) == p
  {
    p.(views := Some(p.views.GetOr(0) + 1))
  }

  /** The record after `n` fetches. */
  function ViewedTimes(p: Property, n: nat): Property {
    if n == 0 then p else Viewed(ViewedTimes(p, n - 1))
  }

  /** `n` fetches of a record count `n` views and change nothing else. */
  lemma {:induction false} ViewedTimesCounts(p: Property, n: nat)
    requires n > 0
    ensures ViewedTimes(p, n).views == Some(p.views.GetOr(0) + n)
    ensures ViewedTimes(p, n).(views := p.views) == p
  {
    if n > 1 {
      ViewedTimesCounts(p, n - 1);
    }
  }

  // ---------------------------------------------------------------------------
  // Listings

  /** Newest `createdAt` first. */
  predicate NewestFirst(list: seq<Property>) {
    forall i, j :: 0 <= i < j < |list| ==> list[i].createdAt >= list[j].createdAt
  }

  lemma NewestFirstCons(head: Property, rest: seq<Property>)
    requires NewestFirst(rest)
    requires forall j :: 0 <= j < |rest| ==> head.createdAt >= rest[j].createdAt
    ensures NewestFirst([head] + rest)
  {
    var r := [head] + rest;
    forall i, j | 0 <= i < j < |r| ensures r[i].createdAt >= r[j].createdAt {
      assert r[j] == rest[j - 1];
      if i > 0 {
        assert r[i] == rest[i - 1];
      }
    }
  }

  /** A record newer than `p` and than the rest of a list is newer than anything made of them. */
  lemma NewestOverRest(list: seq<Property>, p: Property, rest: seq<Property>)
    requires NewestFirst(list) && list != [] && list[0].createdAt > p.createdAt
    requires multiset(rest) == multiset(list[1..]) + multiset{p}
    ensures forall j :: 0 <= j < |rest| ==> list[0].createdAt >= rest[j].createdAt
  {
    forall j | 0 <= j < |rest| ensures list[0].createdAt >= rest[j].createdAt {
      var x := rest[j];
      assert x in multiset(rest);
      if x != p {
        assert x in multiset(list[1..]);
        var k :| 0 <= k < |list[1..]| && list[1..][k] == x;
        assert list[k + 1] == x;
      }
    }
  }

  /** Puts `p` before the first record that is not newer than it. */
  function InsertNewest(list: seq<Property>, p: Property): (r: seq<Property>)
    requires NewestFirst(list)
    ensures NewestFirst(r)
    ensures multiset(r) == multiset(list) + multiset{p}
    ensures |r| == |list| + 1
    ensures forall x :: x in r <==> x in list || x == p
  {
    if list == [] || list[0].createdAt <= p.createdAt then
      NewestFirstCons(p, list);
      [p] + list
    else
      var rest := InsertNewest(list[1..], p);
      NewestOverRest(list, p, rest);
      NewestFirstCons(list[0], rest);
      assert list == [list[0]] + list[1..];
      [list[0]] + rest
  }

  /** The ids of the records `caller` owns. */
  function OwnedIds(table: map<Id, Property>, caller: Id): (r: set<Id>)
    ensures forall id :: id in r <==> id in table && table[id].ownerId == caller
  {
    set id | id in table && table[id].ownerId == caller
  }

  /** Taking one more id off the to-do set adds it to the owned ids seen so far exactly when `caller` owns it. */
  lemma OwnedAfterStep(table: map<Id, Property>, caller: Id, todo: set<Id>, id: Id)
    requires id in todo && id in table
    ensures table[id].ownerId == caller ==>
      OwnedIds(table, caller) - (todo - {id}) == (OwnedIds(table, caller) - todo) + {id} &&
      |OwnedIds(table, caller) - (todo - {id})| == |OwnedIds(table, caller) - todo| + 1
    ensures table[id].ownerId != caller ==>
      OwnedIds(table, caller) - (todo - {id}) == OwnedIds(table, caller) - todo
  {
    var before := OwnedIds(table, caller) - todo;
    assert id !in before;
    if table[id].ownerId == caller {
      assert OwnedIds(table, caller) - (todo - {id}) == before + {id};
    }
  }

  // ---------------------------------------------------------------------------
  // The table

  /** Every key names the record stored under it, and every key is below `bound`. */
  predicate KeyedBelow(table: map<Id, Property>, bound: Id) {
    forall id :: id in table ==> table[id].id == id && id < bound
  }

  /** A record stored under the bound itself, with that id, keeps the table keyed below the next bound. */
  lemma InsertAtBound(table: map<Id, Property>, bound: Id, p: Property)
    requires KeyedBelow(table, bound) && p.id == bound
    ensures KeyedBelow(table[bound := p], bound + 1)
  {
  }

  class PropertyStore {
    var table: map<Id, Property>
    /** The id the next created record gets. */
    var nextId: Id

    ghost predicate Valid()
      reads this
    {
      KeyedBelow(table, nextId)
    }

    constructor ()
      ensures Valid() && table == map[] && nextId == 0
    {
      table := map[];
      nextId := 0;
    }

    /** `addProperty`: stores a new record owned by the caller and returns it. */
    method AddProperty(caller: Id, input: PropertyInput, files: seq<UploadedFile>, now: int, rt: Runtime)
      returns (reply: Reply<Property>)
      requires Valid()
      modifies this
      ensures Valid()
      ensures reply == Ok(200, NewRecord(old(nextId), caller, input, CreateImages(files, input.images, rt), now, rt))
      ensures table == old(table)[old(nextId) := reply.value]
      ensures nextId == old(nextId) + 1
    {
      var images := CollectCreateImages(files, input.images, rt);
      var p := NewRecord(nextId, caller, input, images, now, rt);
      InsertAtBound(table, nextId, p);
      table := table[nextId := p];
      nextId := nextId + 1;
      reply := Ok(200, p);
    }

    /**
     * `updateProperty`: 404 for a missing record and 403 for another owner's,
     * both before anything is written; otherwise the merged record is stored
     * and returned.
     */
    method UpdateProperty(caller: Id, id: Id, input: PropertyInput, files: seq<UploadedFile>, rt: Runtime)
      returns (reply: Reply<Property>)
      requires Valid()
      modifies this
      ensures Valid() && nextId == old(nextId)
      ensures id !in old(table) ==> reply == Fail(404, "Property not found") && table == old(table)
      ensures id in old(table) && old(table)[id].ownerId != caller ==>
        reply == Fail(403, "Not allowed") && table == old(table)
      ensures id in old(table) && old(table)[id].ownerId == caller ==>
        reply == Ok(200, Merge(old(table)[id], input, UpdateImages(files, input.existingImages, rt), rt)) &&
        table == old(table)[id := reply.value]
    {
      if id !in table {
        return Fail(404, "Property not found");
      }
      var p := table[id];
      if p.ownerId != caller {
        return Fail(403, "Not allowed");
      }
      var images := CollectUpdateImages(files, input.existingImages, rt);
      var updated := Merge(p, input, images, rt);
      table := table[id := updated];
      reply := Ok(200, updated);
    }

    /** `deleteProperty`: the same two guards, then exactly that record is removed. */
    method DeleteProperty(caller: Id, id: Id) returns (reply: Reply<string>)
      requires Valid()
      modifies this
      ensures Valid() && nextId == old(nextId)
      ensures id !in old(table) ==> reply == Fail(404, "Property not found") && table == old(table)
      ensures id in old(table) && old(table)[id].ownerId != caller ==>
        reply == Fail(403, "Not allowed") && table == old(table)
      ensures id in old(table) && old(table)[id].ownerId == caller ==>
        reply == Ok(200, "Deleted") && table == old(table) - {id}
    {
      if id !in table {
        return Fail(404, "Property not found");
      }
      if table[id].ownerId != caller {
        return Fail(403, "Not allowed");
      }
      table := table - {id};
      reply := Ok(200, "Deleted");
    }

    /** `getPropertyById`: 404 for a missing record; otherwise one more view is stored and the record as read is returned. */
    method GetPropertyById(id: Id) returns (reply: Reply<Property>)
      requires Valid()
      modifies this
      ensures Valid() && nextId == old(nextId)
      ensures id !in old(table) ==> reply == Fail(404, "Property not found") && table == old(table)
      ensures id in old(table) ==>
        reply == Ok(200, old(table)[id]) && table == old(table)[id := Viewed(old(table)[id])]
    {
      if id !in table {
        return Fail(404, "Property not found");
      }
      var p := table[id];
      table := table[id := Viewed(p)];
      reply := Ok(200, p);
    }

    /** `getMyProperties`: exactly the caller's records, each once, newest first. */
    method GetMyProperties(caller: Id) returns (list: seq<Property>)
      requires Valid()
      ensures forall p :: p in list <==> p.id in table && table[p.id] == p && p.ownerId == caller
      ensures |list| == |OwnedIds(table, caller)|
      ensures NewestFirst(list)
    {
      list := [];
      var todo := table.Keys;
      while todo != {}
        invariant todo <= table.Keys
        invariant NewestFirst(list)
        invariant forall p :: p in list <==> p.id in table && table[p.id] == p && p.ownerId == caller && p.id !in todo
        invariant |list| == |OwnedIds(table, caller) - todo|
        decreases |todo|
      {
        var id :| id in todo;
        var p := table[id];
        OwnedAfterStep(table, caller, todo, id);
        if p.ownerId == caller {
          list := InsertNewest(list, p);
        }
        todo := todo - {id};
      }
    }
  }
}
