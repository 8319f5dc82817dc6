/**
 * The state of the add-property page of frontend/src/pages/AddProperty.jsx
 * that its handlers change: the image selection with its index-aligned
 * previews, the error text, and the multipart body the submit handler builds.
 */
module AddPropertyForm {
  import opened Common

  /** A browser `File`: its MIME type and its size in bytes. */
  datatype SelectedFile = SelectedFile(name: string, mimeType: string, size: nat)

  /** The text inputs of the form; `kind` is the `type` select. */
  datatype FormFields = FormFields(
    title: string,
    description: string,
    price: string,
    location: string,
    kind: string,
    bedrooms: string,
    bathrooms: string,
    area: string,
    yearBuilt: string,
    parking: string,
    features: string)

  /** The names the body's entries are appended under. */
  datatype FieldName =
    | Title | Description | Price | Location | Type | Bedrooms | Bathrooms | Area
    | YearBuilt | Parking | Features | Images

  /** One `FormData.append(name, value)`. */
  datatype FormValue = Text(text: string) | Attachment(file: SelectedFile)
  datatype FormEntry = FormEntry(name: FieldName, value: FormValue)

  const MaxSize: nat := 5 * 1024 * 1024
  const ValidTypes: seq<string> := ["image/jpeg", "image/jpg", "image/png", "image/webp"]
  const InvalidTypeMessage: string := "Invalid file type. Only JPEG, PNG, and WebP are allowed."
  const TooLargeMessage: string := "File size too large. Maximum size is 5MB."

  predicate Acceptable(f: SelectedFile) {
    f.mimeType in ValidTypes && f.size <= MaxSize
  }

  /** The message of the first file that fails, its type checked before its size; none when all pass. */
  function FirstProblem(files: seq<SelectedFile>): (r: Option<string>)
    ensures r.None? <==> forall i :: 0 <= i < |files| ==> Acceptable(files[i])
    ensures r.Some? ==> r.value == InvalidTypeMessage || r.value == TooLargeMessage
  {
    if files == [] then None
    else if files[0].mimeType !in ValidTypes then Some(InvalidTypeMessage)
    else if files[0].size > MaxSize then Some(TooLargeMessage)
    else
      var rest := FirstProblem(files[1..]);
      assert forall i :: 1 <= i < |files| ==> files[i] == files[1..][i - 1];
      rest
  }

  /** The first failing file decides the message, whatever follows it. */
  lemma {:induction false} FirstOffenderDecides(files: seq<SelectedFile>, k: nat)
    requires k < |files| && !Acceptable(files[k])
    requires forall i :: 0 <= i < k ==> Acceptable(files[i])
    ensures FirstProblem(files) == Some(if files[k].mimeType !in ValidTypes then InvalidTypeMessage else TooLargeMessage)
  {
    if k > 0 {
      assert Acceptable(files[0]);
      assert forall i :: 0 <= i < k - 1 ==> files[1..][i] == files[i + 1];
      FirstOffenderDecides(files[1..], k - 1);
    }
  }

  /** A file of exactly 5 MiB passes; one byte more does not. */
  lemma SizeLimitInclusive(name: string, mimeType: string)
    requires mimeType in ValidTypes
    ensures FirstProblem([SelectedFile(name, mimeType, 5 * 1024 * 1024)]) == None
    ensures FirstProblem([SelectedFile(name, mimeType, 5 * 1024 * 1024 + 1)]) == Some(TooLargeMessage)
  {
    assert [SelectedFile(name, mimeType, 5 * 1024 * 1024)][1..] == [];
  }

  /** `filter((_, i) => i !== index)`: the element at `index` goes, the others keep their order. */
  function RemoveAt<T>(s: seq<T>, index: int): (r: seq<T>)
    ensures 0 <= index < |s| ==> |r| == |s| - 1
    ensures 0 <= index < |s| ==> forall k :: 0 <= k < |r| ==> r[k] == if k < index then s[k] else s[k + 1]
    ensures !(0 <= index < |s|) ==> r == s
  {
    if 0 <= index < |s| then s[..index] + s[index + 1..] else s
  }

  /** The name of every appended entry, in order. */
  function Names(entries: seq<FormEntry>): (r: seq<FieldName>)
    ensures |r| == |entries|
    ensures forall i :: 0 <= i < |entries| ==> r[i] == entries[i].name
  {
    if entries == [] then [] else [entries[0].name] + Names(entries[1..])
  }

  /** `append(name, value)` when `value` is non-empty; nothing otherwise. */
  function Optional(name: FieldName, value: string): seq<FormEntry> {
    if value != [] then [FormEntry(name, Text(value))] else []
  }

  /** The entries appended unconditionally, in append order. */
  function RequiredEntries(f: FormFields): seq<FormEntry> {
    [ FormEntry(Title, Text(f.title)),
      FormEntry(Description, Text(f.description)),
      FormEntry(Price, Text(f.price)),
      FormEntry(Location, Text(f.location)),
      FormEntry(Type, Text(f.kind)),
      FormEntry(Bedrooms, Text(f.bedrooms)),
      FormEntry(Bathrooms, Text(f.bathrooms)),
      FormEntry(Area, Text(f.area)) ]
  }

  /** The text entries of the submitted body, in append order. */
  function FieldEntries(f: FormFields): seq<FormEntry> {
    RequiredEntries(f) + Optional(YearBuilt, f.yearBuilt) + Optional(Parking, f.parking) + Optional(Features, f.features)
  }

  /** One `images` entry per file. */
  function ImageEntries(files: seq<SelectedFile>): (r: seq<FormEntry>)
    ensures |r| == |files|
  {
    if files == [] then [] else ImageEntries(files[..|files| - 1]) + [FormEntry(Images, Attachment(files[|files| - 1]))]
  }

  lemma {:induction false} ImageEntriesAt(files: seq<SelectedFile>)
    ensures forall i :: 0 <= i < |files| ==> ImageEntries(files)[i] == FormEntry(Images, Attachment(files[i]))
  {
    if files != [] {
      var init := files[..|files| - 1];
      ImageEntriesAt(init);
      assert forall i :: 0 <= i < |init| ==> init[i] == files[i];
    }
  }

  lemma NamesAppend(a: seq<FormEntry>, b: seq<FormEntry>)
    ensures Names(a + b) == Names(a) + Names(b)
  {
    var n := Names(a + b);
    assert forall i :: 0 <= i < |n| ==> n[i] == (Names(a) + Names(b))[i] by {
      forall i | 0 <= i < |n| ensures n[i] == (Names(a) + Names(b))[i] {
        if i < |a| {
          assert (a + b)[i] == a[i];
        } else {
          assert (a + b)[i] == b[i - |a|];
        }
      }
    }
  }

  /** Appending entries for the files: each file's entry sits at its position after the fields, and only there. */
  lemma AppendImages(fields: seq<FormEntry>, files: seq<SelectedFile>)
    requires forall i :: 0 <= i < |fields| ==> fields[i].name != Images
    ensures var entries := fields + ImageEntries(files);
      && (forall i :: 0 <= i < |files| ==> entries[|fields| + i] == FormEntry(Images, Attachment(files[i])))
      && (forall i :: 0 <= i < |entries| && entries[i].name == Images ==> |fields| <= i)
      && (forall n :: n != Images ==> (n in Names(entries) <==> n in Names(fields)))
  {
    var images := ImageEntries(files);
    ImageEntriesAt(files);
    NamesAppend(fields, images);
    assert forall n :: n in Names(images) ==> n == Images;
  }

  /** Appending the file entries appends only `images` names. */
  lemma NamesWithImages(fields: seq<FormEntry>, files: seq<SelectedFile>)
    ensures Names(fields + ImageEntries(files)) == Names(fields) + Names(ImageEntries(files))
    ensures forall n :: n != Images ==> n !in Names(ImageEntries(files))
  {
    ImageEntriesAt(files);
    NamesAppend(fields, ImageEntries(files));
  }

  lemma RequiredNames(f: FormFields)
    ensures Names(RequiredEntries(f)) == [Title, Description, Price, Location, Type, Bedrooms, Bathrooms, Area]
  {
  }

  lemma OptionalName(name: FieldName, value: string)
    ensures Names(Optional(name, value)) == if value != [] then [name] else []
  {
  }

  /** The names of the text entries: the eight required ones, then each optional one that is non-empty. */
  lemma FieldNames(f: FormFields)
    ensures Names(FieldEntries(f)) ==
      [Title, Description, Price, Location, Type, Bedrooms, Bathrooms, Area]
      + (if f.yearBuilt != [] then [YearBuilt] else [])
      + (if f.parking != [] then [Parking] else [])
      + (if f.features != [] then [Features] else [])
  {
    var req := RequiredEntries(f);
    var o1, o2, o3 := Optional(YearBuilt, f.yearBuilt), Optional(Parking, f.parking), Optional(Features, f.features);
    RequiredNames(f);
    OptionalName(YearBuilt, f.yearBuilt);
    OptionalName(Parking, f.parking);
    OptionalName(Features, f.features);
    NamesAppend(req, o1);
    NamesAppend(req + o1, o2);
    NamesAppend(req + o1 + o2, o3);
  }

  /** Each optional field has an entry exactly when it is non-empty. */
  lemma FieldPresence(f: FormFields)
    ensures YearBuilt in Names(FieldEntries(f)) <==> f.yearBuilt != []
    ensures Parking in Names(FieldEntries(f)) <==> f.parking != []
    ensures Features in Names(FieldEntries(f)) <==> f.features != []
  {
    FieldNames(f);
    var req: seq<FieldName> := [Title, Description, Price, Location, Type, Bedrooms, Bathrooms, Area];
    assert YearBuilt !in req && Parking !in req && Features !in req;
  }

  /**
   * The names in the submitted body: the eight required fields first, in
   * order, and `yearBuilt`, `parking` and `features` present exactly when
   * non-empty.
   */
  lemma FormDataNames(f: FormFields, files: seq<SelectedFile>)
    ensures var names := Names(FieldEntries(f) + ImageEntries(files));
      && |names| >= 8
      && names[..8] == [Title, Description, Price, Location, Type, Bedrooms, Bathrooms, Area]
      && (YearBuilt in names <==> f.yearBuilt != [])
      && (Parking in names <==> f.parking != [])
      && (Features in names <==> f.features != [])
  {
    FieldNames(f);
    FieldPresence(f);
    NamesWithImages(FieldEntries(f), files);
  }

  /** The submitted body ends with one `images` entry per selected file, in order, and holds no other `images` entry. */
  lemma FormDataImages(f: FormFields, files: seq<SelectedFile>)
    ensures var entries := FieldEntries(f) + ImageEntries(files);
      && |entries| >= |files|
      && (forall i :: 0 <= i < |files| ==> entries[|entries| - |files| + i] == FormEntry(Images, Attachment(files[i])))
      && (forall i :: 0 <= i < |entries| && entries[i].name == Images ==> |entries| - |files| <= i)
  {
    var fields := FieldEntries(f);
    FieldNames(f);
    assert forall i :: 0 <= i < |fields| ==> fields[i].name == Names(fields)[i];
    AppendImages(fields, files);
  }

  class AddPropertyPage {
    var formData: FormFields
    var selectedImages: seq<SelectedFile>
    var imagePreviews: seq<string>
    var error: string

    /** The previews stay index-aligned with the selected images. */
    ghost predicate Valid()
      reads this
    {
      |selectedImages| == |imagePreviews|
    }

    constructor ()
      ensures Valid() && selectedImages == [] && imagePreviews == [] && error == []
      ensures formData == FormFields("", "", "", "", "For Sale", "", "", "", "", "", "")
    {
      formData := FormFields("", "", "", "", "For Sale", "", "", "", "", "", "");
      selectedImages := [];
      imagePreviews := [];
      error := [];
    }

    /**
     * `handleImageChange`: a selection with a failing file is rejected whole,
     * with the first failure's message and the previous selection left as it
     * was; otherwise it replaces the selection, with one preview per file.
     */
    method HandleImageChange(files: seq<SelectedFile>, createObjectUrl: SelectedFile -> string)
      requires Valid()
      modifies this
      ensures Valid() && formData == old(formData)
      ensures FirstProblem(files).Some? ==>
        error == FirstProblem(files).value &&
        selectedImages == old(selectedImages) && imagePreviews == old(imagePreviews)
      ensures FirstProblem(files).None? ==>
        error == old(error) && selectedImages == files &&
        forall i :: 0 <= i < |files| ==> imagePreviews[i] == createObjectUrl(files[i])
    {
      var i := 0;
      while i < |files|
        invariant 0 <= i <= |files|
        invariant forall k :: 0 <= k < i ==> Acceptable(files[k])
      {
        if files[i].mimeType !in ValidTypes {
          FirstOffenderDecides(files, i);
          error := InvalidTypeMessage;
          return;
        }
        if files[i].size > MaxSize {
          FirstOffenderDecides(files, i);
          error := TooLargeMessage;
          return;
        }
        i := i + 1;
      }
      selectedImages := files;
      var previews := [];
      for j := 0 to |files|
        invariant |previews| == j
        invariant forall k :: 0 <= k < j ==> previews[k] == createObjectUrl(files[k])
      {
        previews := previews + [createObjectUrl(files[j])];
      }
      imagePreviews := previews;
    }

    /** `removeImage`: the same index leaves both lists. */
    method RemoveImage(index: int)
      requires Valid()
      modifies this
      ensures Valid() && formData == old(formData) && error == old(error)
      ensures selectedImages == RemoveAt(old(selectedImages), index)
      ensures imagePreviews == RemoveAt(old(imagePreviews), index)
    {
      selectedImages := RemoveAt(selectedImages, index);
      imagePreviews := RemoveAt(imagePreviews, index);
    }

    /** The body `handleSubmit` sends: the field entries, then one `images` entry per selected file, in order. */
    method BuildFormData() returns (entries: seq<FormEntry>)
      ensures entries == FieldEntries(formData) + ImageEntries(selectedImages)
    {
      var f := formData;
      entries := [
        FormEntry(Title, Text(f.title)),
        FormEntry(Description, Text(f.description)),
        FormEntry(Price, Text(f.price)),
        FormEntry(Location, Text(f.location)),
        FormEntry(Type, Text(f.kind)),
        FormEntry(Bedrooms, Text(f.bedrooms)),
        FormEntry(Bathrooms, Text(f.bathrooms)),
        FormEntry(Area, Text(f.area)) ];
      ghost var required := entries;
      if f.yearBuilt != [] {
        entries := entries + [FormEntry(YearBuilt, Text(f.yearBuilt))];
      }
      assert entries == required + Optional(YearBuilt, f.yearBuilt);
      if f.parking != [] {
        entries := entries + [FormEntry(Parking, Text(f.parking))];
      }
      assert entries == required + Optional(YearBuilt, f.yearBuilt) + Optional(Parking, f.parking);
      if f.features != [] {
        entries := entries + [FormEntry(Features, Text(f.features))];
      }
      ghost var fields := entries;
      assert fields == FieldEntries(f);
      for i := 0 to |selectedImages|
        invariant entries == fields + ImageEntries(selectedImages[..i])
      {
        assert selectedImages[..i + 1] == selectedImages[..i] + [selectedImages[i]];
        entries := entries + [FormEntry(Images, Attachment(selectedImages[i]))];
      }
      assert selectedImages[..|selectedImages|] == selectedImages;
    }
  }
}
