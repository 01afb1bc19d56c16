/**
 * The field mapper (`mapCognitoToDog`): a form submission becomes a canonical
 * dog record. Each concept is read from an ordered list of alias keys (the
 * first truthy one wins, as with `a || b || c`), and image URLs are collected
 * from five photo fields in field order, then array order.
 */
module Mapper {
  import opened Wrappers
  import opened JsValues
  import opened Seqs
  import Availability

  /** A form submission: field name to value. A missing key is an undefined field. */
  type RawRecord = map<string, Value>

  /**
   * The canonical record. An optional field is `None` when none of its keys
   * holds a truthy value; `entryId` is the raw `Id` field, checked later.
   */
  datatype Dog = Dog(
    entryId: Option<Value>,
    name: Option<Value>,
    story: Option<Value>,
    litter: Option<Value>,
    birthday: Option<Value>,
    breed: Option<Value>,
    gender: Option<Value>,
    sizeWhenGrown: Option<Value>,
    availability: string,
    imageUrls: seq<string>)

  const IdKey := "Id"
  const NameKeys: seq<string> := ["DogName", "Name", "Dog Name"]
  const StoryKeys: seq<string> := ["MyStory", "My Story"]
  const LitterKeys: seq<string> := ["LitterName", "Litter"]
  const BirthdayKeys: seq<string> := ["PupBirthday", "Birthday"]
  const BreedKeys: seq<string> := ["Breed"]
  const GenderKeys: seq<string> := ["Gender"]
  const SizeKeys: seq<string> := ["EstimatedSizeWhenGrown", "Size when Grown"]
  const AvailabilityKeys: seq<string> := ["Code", "Availability"]

  /** The photo fields, in the order their images are collected. */
  const PhotoFields: seq<string> :=
    ["MainPhoto", "AdditionalPhoto1", "AdditionalPhoto2", "AdditionalPhoto3", "AdditionalPhoto4"]

  /** Download endpoint used for an attachment that carries no direct URL. */
  const FileEndpoint := "https://www.cognitoforms.com/file/"

  function Lookup(raw: RawRecord, key: string): Option<Value>
  {
    if key in raw then Some(raw[key]) else None
  }

  predicate TruthyAt(raw: RawRecord, key: string)
  {
    key in raw && Truthy(raw[key])
  }

  /**
   * `raw[k0] || raw[k1] || ...`: the value under the first key whose value is
   * truthy, or `None` when there is no such key.
   */
  function Resolve(raw: RawRecord, keys: seq<string>): (r: Option<Value>)
    ensures r.None? <==> forall i :: 0 <= i < |keys| ==> !TruthyAt(raw, keys[i])
    ensures r.Some? ==>
      exists i :: 0 <= i < |keys| && TruthyAt(raw, keys[i]) && r.value == raw[keys[i]]
        && forall j :: 0 <= j < i ==> !TruthyAt(raw, keys[j])
  {
    if |keys| == 0 then None
    else if TruthyAt(raw, keys[0]) then Some(raw[keys[0]])
    else
      var r := Resolve(raw, keys[1..]);
      assert forall i :: 1 <= i < |keys| ==> keys[1..][i - 1] == keys[i];
      r
  }

  /** The descriptors of one photo field; a missing or non-array field has none. */
  function PhotoItems(raw: RawRecord, field: string): seq<Descriptor>
  {
    if field in raw && raw[field].List? then raw[field].items else []
  }

  /** The descriptors of `fields`, field after field. */
  function Descriptors(raw: RawRecord, fields: seq<string>): seq<Descriptor>
  {
    if |fields| == 0 then []
    else Descriptors(raw, fields[..|fields| - 1]) + PhotoItems(raw, fields[|fields| - 1])
  }

  /**
   * The URL a descriptor contributes: its `File` URL when that is set,
   * otherwise the download endpoint for its `Id`, otherwise none.
   */
  function DescriptorUrl(d: Descriptor): Option<string>
  {
    match d
    case Blank => None
    case Item(file, id) =>
      if file != "" then Some(file)
      else if id != "" then Some(FileEndpoint + id)
      else None
  }

  function Urls(ds: seq<Descriptor>): (us: seq<Option<string>>)
    ensures |us| == |ds| && forall i :: 0 <= i < |ds| ==> us[i] == DescriptorUrl(ds[i])
  {
    seq(|ds|, i requires 0 <= i < |ds| => DescriptorUrl(ds[i]))
  }

  /** The image URLs of a submission, as the mapper collects them. */
  function ImageUrls(raw: RawRecord): seq<string>
  {
    Present(Urls(Descriptors(raw, PhotoFields)))
  }

  /** The URLs of one photo field alone. */
  function FieldUrls(raw: RawRecord, field: string): seq<string>
  {
    Present(Urls(PhotoItems(raw, field)))
  }

  lemma UrlsAppend(a: seq<Descriptor>, b: seq<Descriptor>)
    ensures Urls(a + b) == Urls(a) + Urls(b)
  {
  }

  /**
   * The image extraction loop: for each photo field that holds a non-empty
   * array, the URLs of its descriptors are appended in turn.
   */
  method ExtractImageUrls(raw: RawRecord) returns (urls: seq<string>)
    ensures urls == ImageUrls(raw)
  {
    urls := [];
    var f := 0;
    while f < |PhotoFields|
      invariant 0 <= f <= |PhotoFields|
      invariant urls == Present(Urls(Descriptors(raw, PhotoFields[..f])))
    {
      var field := PhotoFields[f];
      ghost var done := Descriptors(raw, PhotoFields[..f]);
      assert PhotoFields[..f + 1][..f] == PhotoFields[..f];
      if field in raw && raw[field].List? && |raw[field].items| > 0 {
        urls := AppendDescriptorUrls(urls, raw[field].items);
      } else {
        assert done + PhotoItems(raw, field) == done;
      }
      UrlsAppend(done, PhotoItems(raw, field));
      PresentAppend(Urls(done), Urls(PhotoItems(raw, field)));
      f := f + 1;
    }
    assert PhotoFields[..f] == PhotoFields;
  }

  /**
   * The inner loop over one photo array: a descriptor with a `File` adds that
   * URL, one with only an `Id` adds its download URL, any other adds nothing.
   */
  method AppendDescriptorUrls(urls: seq<string>, items: seq<Descriptor>) returns (out: seq<string>)
    ensures out == urls + Present(Urls(items))
  {
    out := urls;
    var j := 0;
    while j < |items|
      invariant 0 <= j <= |items|
      invariant out == urls + Present(Urls(items[..j]))
    {
      var d := items[j];
      if d.Item? && d.file != "" {
        out := out + [d.file];
      } else if d.Item? && d.id != "" {
        out := out + [FileEndpoint + d.id];
      }
      PresentUrlsStep(items, j);
      j := j + 1;
    }
    assert items[..j] == items;
  }

  /** One more descriptor adds its URL, if it has one, at the end. */
  lemma PresentUrlsStep(items: seq<Descriptor>, j: nat)
    requires j < |items|
    ensures Present(Urls(items[..j + 1])) ==
      Present(Urls(items[..j])) + (if DescriptorUrl(items[j]).Some? then [DescriptorUrl(items[j]).value] else [])
  {
    assert items[..j + 1] == items[..j] + [items[j]];
    UrlsAppend(items[..j], [items[j]]);
    assert Urls(items[..j + 1])[..j] == Urls(items[..j]);
  }

  /**
   * Field order: all URLs of the main photo come first, then those of each
   * additional photo field in turn.
   */
  lemma {:induction false} ImageUrlsByField(raw: RawRecord)
    ensures ImageUrls(raw) ==
      FieldUrls(raw, PhotoFields[0]) + FieldUrls(raw, PhotoFields[1]) + FieldUrls(raw, PhotoFields[2])
      + FieldUrls(raw, PhotoFields[3]) + FieldUrls(raw, PhotoFields[4])
  {
    FiveFields(raw, PhotoFields);
  }

  lemma FiveFields(raw: RawRecord, fs: seq<string>)
    requires |fs| == 5
    ensures Present(Urls(Descriptors(raw, fs))) ==
      FieldUrls(raw, fs[0]) + FieldUrls(raw, fs[1]) + FieldUrls(raw, fs[2]) + FieldUrls(raw, fs[3]) + FieldUrls(raw, fs[4])
  {
    FieldsSnoc(raw, fs[..5]);
    assert fs[..5][..4] == fs[..4];
    FieldsSnoc(raw, fs[..4]);
    assert fs[..4][..3] == fs[..3];
    FieldsSnoc(raw, fs[..3]);
    assert fs[..3][..2] == fs[..2];
    FieldsSnoc(raw, fs[..2]);
    assert fs[..2][..1] == fs[..1];
    FieldsSnoc(raw, fs[..1]);
    assert fs[..1][..0] == [];
    assert fs[..5] == fs;
    FiveParts(Present(Urls(Descriptors(raw, fs[..1]))), Present(Urls(Descriptors(raw, fs[..2]))),
      Present(Urls(Descriptors(raw, fs[..3]))), Present(Urls(Descriptors(raw, fs[..4]))),
      Present(Urls(Descriptors(raw, fs[..5]))),
      FieldUrls(raw, fs[0]), FieldUrls(raw, fs[1]), FieldUrls(raw, fs[2]), FieldUrls(raw, fs[3]), FieldUrls(raw, fs[4]));
  }

  lemma FiveParts<T>(a1: seq<T>, a2: seq<T>, a3: seq<T>, a4: seq<T>, a5: seq<T>,
                     u1: seq<T>, u2: seq<T>, u3: seq<T>, u4: seq<T>, u5: seq<T>)
    requires a1 == [] + u1 && a2 == a1 + u2 && a3 == a2 + u3 && a4 == a3 + u4 && a5 == a4 + u5
    ensures a5 == u1 + u2 + u3 + u4 + u5
  {
  }

  /** The URLs of a list of fields are those of all but the last, then the last field's. */
  lemma FieldsSnoc(raw: RawRecord, fields: seq<string>)
    requires |fields| > 0
    ensures Present(Urls(Descriptors(raw, fields)))
      == Present(Urls(Descriptors(raw, fields[..|fields| - 1]))) + FieldUrls(raw, fields[|fields| - 1])
  {
    var d := Descriptors(raw, fields[..|fields| - 1]);
    var items := PhotoItems(raw, fields[|fields| - 1]);
    UrlsAppend(d, items);
    PresentAppend(Urls(d), Urls(items));
  }

  /**
   * Array order and the choice of URL: the k-th image URL comes from a
   * descriptor at a strictly later position than the (k-1)-th; it is that
   * descriptor's `File` when set and its download URL otherwise; and every
   * descriptor that has a `File` or an `Id` contributes.
   */
  lemma ImageUrlsTrace(raw: RawRecord)
    ensures var ds := Descriptors(raw, PhotoFields);
      var idx := PresentIndices(Urls(ds));
      var urls := ImageUrls(raw);
      && |urls| == |idx| <= |ds|
      && (forall k :: 0 <= k < |idx| ==>
           (idx[k] < |ds| && ds[idx[k]].Item? && (ds[idx[k]].file != "" || ds[idx[k]].id != "")
            && (ds[idx[k]].file != "" ==> urls[k] == ds[idx[k]].file)
            && (ds[idx[k]].file == "" ==> urls[k] == FileEndpoint + ds[idx[k]].id)))
      && (forall k, l :: 0 <= k < l < |idx| ==> idx[k] < idx[l])
      && (forall i :: 0 <= i < |ds| && ds[i].Item? && (ds[i].file != "" || ds[i].id != "") ==> i in idx)
  {
    var ds := Descriptors(raw, PhotoFields);
    PresentOrder(Urls(ds));
  }

  /** A submission that carries none of the given photo fields has no descriptors from them. */
  lemma {:induction false} NoPhotoFields(raw: RawRecord, fields: seq<string>)
    requires forall i :: 0 <= i < |fields| ==> fields[i] !in raw
    ensures Descriptors(raw, fields) == []
    decreases |fields|
  {
    if |fields| > 0 {
      NoPhotoFields(raw, fields[..|fields| - 1]);
    }
  }

  /** Without any photo field a submission has no image URLs. */
  lemma NoPhotosNoImages(raw: RawRecord)
    requires forall i :: 0 <= i < |PhotoFields| ==> PhotoFields[i] !in raw
    ensures ImageUrls(raw) == []
  {
    NoPhotoFields(raw, PhotoFields);
  }

  /**
   * `mapCognitoToDog`. The entry id is the raw `Id` field, availability is
   * populated (non-empty unless an availability key holds an array whose
   * string form is empty), and there are at most as many image URLs as photo
   * descriptors.
   */
  function MapDog(raw: RawRecord): (dog: Dog)
    ensures dog.entryId == Lookup(raw, IdKey)
    ensures dog.availability != ""
      || (exists i :: 0 <= i < |AvailabilityKeys| && AvailabilityKeys[i] in raw && raw[AvailabilityKeys[i]].List?)
    ensures !TruthyAt(raw, "Code") && !TruthyAt(raw, "Availability") ==> dog.availability == Availability.NowLabel
    ensures |dog.imageUrls| <= |Descriptors(raw, PhotoFields)|
  {
    Dog(
      Lookup(raw, IdKey),
      Resolve(raw, NameKeys),
      Resolve(raw, StoryKeys),
      Resolve(raw, LitterKeys),
      Resolve(raw, BirthdayKeys),
      Resolve(raw, BreedKeys),
      Resolve(raw, GenderKeys),
      Resolve(raw, SizeKeys),
      Availability.Normalize(Resolve(raw, AvailabilityKeys)),
      ImageUrls(raw))
  }
}
